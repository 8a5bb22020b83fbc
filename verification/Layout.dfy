/** The last stage of the filter compiler: icode_to_fcode lays the block graph out as a
    linear program with 8-bit forward jumps, retrying with an inserted long jump
    whenever a branch does not reach. */
module Layout {
  import opened Bpf
  import opened Graph
  import opened Blocks

  /** The statements slength counts. */
  function Live(ss: seq<Stmt>): seq<Stmt> {
    if ss == [] then []
    else if ss[0] == Nop then Live(ss[1..])
    else [ss[0]] + Live(ss[1..])
  }

  lemma {:induction false} LiveKeepsMeaning(ss: seq<Stmt>, st: State, p: Packet)
    ensures ExecAll(Live(ss), st, p) == ExecAll(ss, st, p)
  {
    if ss != [] {
      LiveKeepsMeaning(ss[1..], Exec(ss[0], st, p), p);
      if ss[0] != Nop {
        assert Live(ss)[1..] == Live(ss[1..]);
      }
    }
  }

  /** It keeps what is not a no-op, in order. */
  lemma {:induction false} LiveFilters(a: seq<Stmt>, s: Stmt, b: seq<Stmt>)
    ensures Nop !in Live(a)
    ensures Live(a + [s] + b) == Live(a) + (if s == Nop then [] else [s]) + Live(b)
    decreases a
  {
    if a == [] {
      assert [] + [s] + b == [s] + b;
    } else {
      assert (a + [s] + b)[1..] == a[1..] + [s] + b;
      LiveFilters(a[1..], s, b);
    }
  }

  // ----- what a laid-out block looks like -----

  type Offsets = map<Id, nat>

  /** Control at pc reaches the instruction at target, directly or through one JA. */
  predicate Lands(prog: seq<Insn>, pc: nat, target: nat) {
    pc == target || (pc < |prog| && prog[pc].Always? && pc + 1 + prog[pc].dist == target)
  }

  /** n's code stands at pos: its statements, then its return or its test, whose branches
      land on the code of its successors. */
  ghost predicate Coded(n: Node, pos: nat, at: Offsets, prog: seq<Insn>) {
    var code := Live(n.stmts);
    var end := pos + |code|;
    && end < |prog|
    && (forall i :: 0 <= i < |code| ==> prog[pos + i] == Plain(code[i]))
    && if n.term.Ret? then prog[end] == Return(n.term.k)
       else
         && prog[end].Cond? && prog[end].t == n.term
         && n.jt in at && Lands(prog, end + 1 + prog[end].jt, at[n.jt])
         && n.jf in at && Lands(prog, end + 1 + prog[end].jf, at[n.jf])
  }

  /** A jump at i, on either outcome of a test, stays in the program. */
  predicate JumpsInside(prog: seq<Insn>, i: nat) {
    i < |prog| && match prog[i]
      case Cond(t, jt, jf) => !t.Ret? && i + 1 + jt < |prog| && i + 1 + jf < |prog|
      case Always(dist) => i + 1 + dist < |prog|
      case _ => true
  }

  /** A test whose branches land, with what has been inserted behind it, is coded. */
  lemma TestCoded(n: Node, pos: nat, at: Offsets, prog: seq<Insn>, end: nat, jt: Byte, jf: Byte, room: nat)
    requires end == pos + |Live(n.stmts)| && end + 1 + room <= |prog| && !n.term.Ret?
    requires forall i :: 0 <= i < |Live(n.stmts)| ==> prog[pos + i] == Plain(Live(n.stmts)[i])
    requires prog[end] == Cond(n.term, jt, jf) && n.jt in at && n.jf in at && at[n.jt] < |prog| && at[n.jf] < |prog|
    requires Lands(prog, end + 1 + jt, at[n.jt]) && Lands(prog, end + 1 + jf, at[n.jf])
    requires forall i :: end < i < end + 1 + room ==>
      prog[i].Plain? || (prog[i].Always? && i + 1 + prog[i].dist < |prog|)
    ensures Coded(n, pos, at, prog)
    ensures forall i: nat :: end <= i < end + 1 + room ==> JumpsInside(prog, i)
  {
  }

  /** From tail on all jumps stay inside, and below it there are none yet. */
  ghost predicate Tidy(prog: seq<Insn>, tail: nat) {
    forall i: nat {:trigger prog[i]} :: i < |prog| ==> if i < tail then prog[i].Plain? else JumpsInside(prog, i)
  }

  /** at records where blocks stand, at or above tail, each in place with its successors. */
  ghost predicate AllCoded(g: Net, at: Offsets, prog: seq<Insn>, tail: nat) {
    && Tidy(prog, tail)
    && (forall b :: b in at ==> b < |g| && tail <= at[b])
    && forall b {:trigger Coded(g[b], at[b], at, prog)} :: b in at ==> Coded(g[b], at[b], at, prog)
  }

  lemma {:induction false} RunsLiveCode(prog: seq<Insn>, pc: nat, code: seq<Stmt>, st: State, p: Packet)
    requires pc + |code| <= |prog|
    requires forall i :: 0 <= i < |code| ==> prog[pc + i] == Plain(code[i])
    ensures RunProg(prog, pc, st, p) == RunProg(prog, pc + |code|, ExecAll(code, st, p), p)
    decreases code
  {
    if code != [] {
      assert prog[pc + 0] == Plain(code[0]);
      forall i | 0 <= i < |code[1..]| ensures prog[pc + 1 + i] == Plain(code[1..][i]) {
        assert prog[pc + (i + 1)] == Plain(code[i + 1]);
      }
      RunsLiveCode(prog, pc + 1, code[1..], Exec(code[0], st, p), p);
    }
  }

  /** From the start of a block's code the program returns the block's constant, or goes on
      at the code of the successor the block chooses. */
  lemma {:induction false} BlockRuns(n: Node, pos: nat, at: Offsets, prog: seq<Insn>, st: State, p: Packet)
    requires Coded(n, pos, at, prog)
    ensures n.term.Ret? ==> RunProg(prog, pos, st, p) == Some(n.term.k)
    ensures !n.term.Ret? ==>
      var st' := ExecAll(n.stmts, st, p);
      Choose(n, st') in at && RunProg(prog, pos, st, p) == RunProg(prog, at[Choose(n, st')], st', p)
  {
    RunsLiveCode(prog, pos, Live(n.stmts), st, p);
    LiveKeepsMeaning(n.stmts, st, p);
  }

  /** A program in which every recorded block is in place computes the graph's verdict. */
  lemma {:induction false} LayoutKeepsVerdict(g: Net, rk: Rank, at: Offsets, prog: seq<Insn>, tail: nat,
                                              b: Id, st: State, p: Packet)
    requires Ranked(g, rk) && AllCoded(g, at, prog, tail) && b in at && b < |g|
    ensures RunProg(prog, at[b], st, p) == Some(Run(g, rk, b, st, p))
    decreases rk[b]
  {
    assert Coded(g[b], at[b], at, prog);
    BlockRuns(g[b], at[b], at, prog, st, p);
    if !g[b].term.Ret? {
      var st' := ExecAll(g[b].stmts, st, p);
      LayoutKeepsVerdict(g, rk, at, prog, tail, Choose(g[b], st'), st', p);
    }
  }

  /** Writing below tail and recording further blocks leaves finished code in place. */
  lemma {:induction false} StaysCoded(n: Node, pos: nat, at: Offsets, at': Offsets,
                                      prog: seq<Insn>, prog': seq<Insn>, tail: nat)
    requires tail <= pos && Coded(n, pos, at, prog)
    requires forall c :: c in at ==> c in at' && at'[c] == at[c]
    requires |prog'| == |prog| && forall i :: tail <= i < |prog| ==> prog'[i] == prog[i]
    ensures Coded(n, pos, at', prog')
  {
    var code := Live(n.stmts);
    forall i | 0 <= i < |code| ensures prog'[pos + i] == Plain(code[i]) {
      assert prog[pos + i] == Plain(code[i]);
    }
  }

  lemma {:induction false} PlacedOneMore(g: Net, at: Offsets, prog: seq<Insn>, prog': seq<Insn>,
                                         tail: nat, p: Id, pos: nat)
    requires AllCoded(g, at, prog, tail) && p !in at && p < |g| && pos <= tail
    requires |prog'| == |prog| && forall i :: tail <= i < |prog| ==> prog'[i] == prog[i]
    requires Coded(g[p], pos, at[p := pos], prog')
    requires forall i: nat {:trigger prog'[i]} :: i < tail && i < |prog| ==>
      if i < pos then prog'[i].Plain? else JumpsInside(prog', i)
    ensures AllCoded(g, at[p := pos], prog', pos)
  {
    forall i: nat | i < |prog'| ensures if i < pos then prog'[i].Plain? else JumpsInside(prog', i) {
      if i >= tail {
        assert JumpsInside(prog, i) && prog'[i] == prog[i];
      }
    }
    var at' := at[p := pos];
    forall b | b in at' && b != p ensures tail <= at'[b] && Coded(g[b], at'[b], at', prog') {
      assert Coded(g[b], at[b], at, prog);
      StaysCoded(g[b], at[b], at, at', prog, prog', tail);
    }
  }

  lemma TargetsInside(g: Net, at: Offsets, prog: seq<Insn>, tail: nat, b: Id)
    requires AllCoded(g, at, prog, tail) && b < |g|
    ensures g[b].jt in at ==> at[g[b].jt] < |prog|
    ensures g[b].jf in at ==> at[g[b].jf] < |prog|
  {
    assert g[b].jt in at ==> Coded(g[g[b].jt], at[g[b].jt], at, prog);
    assert g[b].jf in at ==> Coded(g[g[b].jf], at[g[b].jf], at, prog);
  }

  // ----- the stage itself -----

  method Slength(ss: seq<Stmt>) returns (n: nat)
    ensures n == |Live(ss)|
  {
    n := 0;
    for i := 0 to |ss|
      invariant n + |Live(ss[i..])| == |Live(ss)|
    {
      assert ss[i..][1..] == ss[i + 1..];
      if ss[i] != Nop {
        n := n + 1;
      }
    }
  }

  /** The objects of hp hold g, and w gives the room each block takes with its present
      flags, which are 0 or 1. */
  ghost predicate Sized(S: set<Block>, hp: Heap, g: Net, w: seq<nat>)
    reads S`stmts, S`term, S`jt, S`jf, S`longjt, S`longjf
  {
    && |hp| == |g| == |w|
    && forall k {:trigger g[k]} :: 0 <= k < |g| ==>
      && Holds(S, hp, k, g[k])
      && hp[k].longjt <= 1 && hp[k].longjf <= 1 && w[k] == |Live(g[k].stmts)| + 1 + hp[k].longjt + hp[k].longjf
  }

  /** The flags still down, counted over the blocks; each failed attempt raises one. */
  ghost function Slack(g: Net, w: seq<nat>): nat
    requires |w| == |g| && forall k :: 0 <= k < |g| ==> w[k] <= |Live(g[k].stmts)| + 3
  {
    if g == [] then 0 else |Live(g[0].stmts)| + 3 - w[0] + Slack(g[1..], w[1..])
  }

  lemma {:induction false} SlackDrops(g: Net, w: seq<nat>, c: nat)
    requires c < |w| == |g| && forall k :: 0 <= k < |g| ==> w[k] <= |Live(g[k].stmts)| + 3
    requires w[c] + 1 <= |Live(g[c].stmts)| + 3
    ensures Slack(g, w[c := w[c] + 1]) < Slack(g, w)
  {
    var w' := w[c := w[c] + 1];
    if c == 0 {
      assert w'[1..] == w[1..];
    } else {
      assert w'[1..] == w[1..][c - 1 := w[1..][c - 1] + 1];
      SlackDrops(g[1..], w[1..], c - 1);
    }
  }

  /** Both walks tally the room of what is reachable. */
  lemma WalkSums(g: Net, rk: Rank, w: seq<nat>, b: Id)
    requires Ranked(g, rk) && b < |g| && |w| == |g|
    ensures Within(Reach(g, rk, b), w)
    ensures Tally(g, rk, w, b, {}, true) == Tally(g, rk, w, b, {}, false) == Sum(w, Reach(g, rk, b))
  {
    WalkMeasuresReach(g, rk, w, b, {}, true);
    WalkMeasuresReach(g, rk, w, b, {}, false);
    assert Reach(g, rk, b) - {} == Reach(g, rk, b);
  }

  class Converter {
    var fstart: array<Insn>
    var ftail: nat
    var curMark: int

    constructor ()
      ensures fresh(fstart) && curMark == 0
    {
      fstart := new Insn[0];
      ftail, curMark := 0, 0;
    }

    /** Exactly the blocks of M carry the current mark, and no mark is newer. */
    ghost predicate Marks(S: set<Block>, hp: Heap, M: set<Id>)
      reads `curMark, S`mark
    {
      forall k {:trigger hp[k]} :: 0 <= k < |hp| ==>
        hp[k] in S && hp[k].key == k && hp[k].mark <= curMark && (hp[k].mark == curMark <==> k in M)
    }

    method CountStmts(p: Block?, ghost S: set<Block>, ghost hp: Heap, ghost g: Net, ghost rk: Rank,
                      ghost w: seq<nat>, ghost M: set<Id>) returns (n: nat, ghost M': set<Id>)
      requires Ranked(g, rk) && Sized(S, hp, g, w) && Marks(S, hp, M)
      requires p != null ==> Points(hp, p, p.key)
      modifies S`mark
      ensures Marks(S, hp, M')
      ensures p == null ==> n == 0 && M' == M
      ensures p != null ==> M' == Visit(g, rk, p.key, M, true) && n == Tally(g, rk, w, p.key, M, true)
      decreases if p == null then 0 else rk[p.key] + 1
    {
      if p == null || p.mark == curMark {
        return 0, M;
      }
      assert g[p.key].stmts == p.stmts;
      p.mark := curMark;
      var nt, nf;
      nt, M' := CountStmts(p.jt, S, hp, g, rk, w, M + {p.key});
      nf, M' := CountStmts(p.jf, S, hp, g, rk, w, M');
      var len := Slength(p.stmts);
      n := len + (nt + nf) + 1 + p.longjt + p.longjf;
    }

    /** Copies the live statements to dst. */
    method CopyStmts(ss: seq<Stmt>, dst: nat)
      requires dst + |Live(ss)| <= fstart.Length
      modifies fstart
      ensures forall i :: 0 <= i < |Live(ss)| ==> fstart[dst + i] == Plain(Live(ss)[i])
      ensures forall i :: 0 <= i < dst || dst + |Live(ss)| <= i < fstart.Length ==> fstart[i] == old(fstart[i])
    {
      var off := 0;
      for j := 0 to |ss|
        invariant off <= |Live(ss)| && Live(ss[j..]) == Live(ss)[off..]
        invariant forall i :: 0 <= i < off ==> fstart[dst + i] == Plain(Live(ss)[i])
        invariant forall i :: 0 <= i < dst || dst + |Live(ss)| <= i < fstart.Length ==> fstart[i] == old(fstart[i])
      {
        assert ss[j..][1..] == ss[j + 1..];
        if ss[j] != Nop {
          assert Live(ss)[off..][0] == ss[j];
          fstart[dst + off] := Plain(ss[j]);
          off := off + 1;
        }
      }
    }

    /** Writes one branch of the test at end: an 8-bit displacement, or a jump through the
        extra-th JA after the test. Fails when the branch is long and has no JA yet. */
    method Branch(end: nat, target: nat, long: nat, extra: nat) returns (ok: bool, d: Byte, extra': nat)
      requires end + extra + long < fstart.Length && long <= 1 && extra <= 1
      requires end + extra + long < target
      modifies fstart
      ensures !ok <==> long == 0 && target - end - 1 >= 256
      ensures ok ==> (extra' != extra <==> target - end - 1 >= 256)
      ensures extra' == extra ==> fstart[..] == old(fstart[..])
      ensures ok && extra' == extra ==> end + 1 + d == target
      ensures ok && extra' != extra ==>
        long == 1 && d == extra && extra' == extra + 1 && fstart[end + extra'] == Always(target - end - extra' - 1)
      ensures forall i :: 0 <= i < fstart.Length && i != end + extra + 1 ==> fstart[i] == old(fstart[i])
    {
      var off := target - end - 1;
      if off >= 256 {
        if long == 0 {
          return false, 0, extra;
        }
        d := extra;
        extra' := extra + 1;
        fstart[end + extra'] := Always(off - extra');
        return true, d, extra';
      }
      return true, off, extra;
    }

    /** Writes the return, or the test with its one or two branches, at end. */
    method Terminate(p: Block, end: nat, ghost n: Node, ghost pos: nat, ghost at: Offsets) returns (ok: bool)
      requires p.term == n.term && p.longjt <= 1 && p.longjf <= 1
      requires end == pos + |Live(n.stmts)| && end + 1 + p.longjt + p.longjf <= fstart.Length
      requires forall i :: 0 <= i < |Live(n.stmts)| ==> fstart[pos + i] == Plain(Live(n.stmts)[i])
      requires !p.term.Ret? ==> p.jt != null && p.jf != null && n.jt in at && n.jf in at
      requires !p.term.Ret? ==> p.jt.offset == at[n.jt] && p.jf.offset == at[n.jf]
      requires !p.term.Ret? ==> end + p.longjt + p.longjf < at[n.jt] && end + p.longjt + p.longjf < at[n.jf]
      requires !p.term.Ret? ==> at[n.jt] < fstart.Length && at[n.jf] < fstart.Length
      requires forall i :: end <= i < end + 1 + p.longjt + p.longjf ==> fstart[i].Plain?
      modifies p`longjt, p`longjf, fstart
      ensures p.longjt <= 1 && p.longjf <= 1
      ensures !ok ==> p.longjt + p.longjf == old(p.longjt + p.longjf) + 1
      ensures ok ==> p.longjt == old(p.longjt) && p.longjf == old(p.longjf)
      ensures p.longjt != old(p.longjt) ==> !p.term.Ret? && p.jt != null && p.jt.offset - end - 1 >= 256
      ensures p.longjf != old(p.longjf) ==> !p.term.Ret? && p.jf != null && p.jf.offset - end - 1 >= 256
      ensures ok ==> Coded(n, pos, at, fstart[..])
      ensures ok ==> forall i :: 0 <= i < end || end + 1 + p.longjt + p.longjf <= i < fstart.Length ==>
        fstart[i] == old(fstart[i])
      ensures ok ==> forall i: nat :: end <= i < end + 1 + p.longjt + p.longjf ==> JumpsInside(fstart[..], i)
    {
      ok := true;
      if p.term.Ret? {
        fstart[end] := Return(p.term.k);
      } else {
        var jt, jf;
        ok, jt, jf := Branches(p, end);
        if ok {
          fstart[end] := Cond(p.term, jt, jf);
          TestCoded(n, pos, at, fstart[..], end, jt, jf, p.longjt + p.longjf);
        }
      }
    }

    /** The displacements of both branches of a test at end, or a flag for one of them. */
    method Branches(p: Block, end: nat) returns (ok: bool, jt: Byte, jf: Byte)
      requires p.longjt <= 1 && p.longjf <= 1 && end + 1 + p.longjt + p.longjf <= fstart.Length
      requires p.jt != null && p.jf != null && p.jt.offset < fstart.Length && p.jf.offset < fstart.Length
      requires end + p.longjt + p.longjf < p.jt.offset && end + p.longjt + p.longjf < p.jf.offset
      requires forall i :: end <= i < end + 1 + p.longjt + p.longjf ==> fstart[i].Plain?
      modifies p`longjt, p`longjf, fstart
      ensures p.longjt <= 1 && p.longjf <= 1
      ensures !ok ==> p.longjt + p.longjf == old(p.longjt + p.longjf) + 1
      ensures ok ==> p.longjt == old(p.longjt) && p.longjf == old(p.longjf)
      ensures p.longjt != old(p.longjt) ==> p.jt.offset - end - 1 >= 256
      ensures p.longjf != old(p.longjf) ==> p.jf.offset - end - 1 >= 256
      ensures ok ==> Lands(fstart[..], end + 1 + jt, p.jt.offset) && Lands(fstart[..], end + 1 + jf, p.jf.offset)
      ensures ok ==> forall i :: 0 <= i <= end || end + 1 + p.longjt + p.longjf <= i < fstart.Length ==>
        fstart[i] == old(fstart[i])
      ensures ok ==> forall i :: end < i < end + 1 + p.longjt + p.longjf ==>
        fstart[i].Plain? || (fstart[i].Always? && i + 1 + fstart[i].dist < fstart.Length)
    {
      jf := 0;
      var extra;
      ok, jt, extra := Branch(end, p.jt.offset, p.longjt, 0);
      if !ok {
        p.longjt := p.longjt + 1;
        return;
      }
      ok, jf, extra := Branch(end, p.jf.offset, p.longjf, extra);
      if !ok {
        p.longjf := p.longjf + 1;
      }
    }

    /** Writes one block, whose successors are in place, just below the tail. */
    method Emit(p: Block, ghost g: Net, ghost at: Offsets) returns (ok: bool)
      requires p.key < |g| && p.key !in at && p.stmts == g[p.key].stmts && p.term == g[p.key].term
      requires p.longjt <= 1 && p.longjf <= 1
      requires |Live(p.stmts)| + 1 + p.longjt + p.longjf <= ftail <= fstart.Length
      requires AllCoded(g, at, fstart[..], ftail)
      requires !p.term.Ret? ==> p.jt != null && p.jf != null && p.jt != p && p.jf != p
      requires !p.term.Ret? ==> g[p.key].jt in at && g[p.key].jf in at
      requires !p.term.Ret? ==> ftail <= p.jt.offset == at[g[p.key].jt] && ftail <= p.jf.offset == at[g[p.key].jf]
      modifies p`offset, p`longjt, p`longjf, `ftail, fstart
      ensures p.longjt <= 1 && p.longjf <= 1
      ensures !ok ==> p.longjt + p.longjf == old(p.longjt + p.longjf) + 1
      ensures ok ==> p.longjt == old(p.longjt) && p.longjf == old(p.longjf)
      ensures ok ==> p.offset == ftail == old(ftail) - (|Live(p.stmts)| + 1 + p.longjt + p.longjf)
      ensures ok ==> AllCoded(g, at[p.key := ftail], fstart[..], ftail)
    {
      var slen := Slength(p.stmts);
      ftail := ftail - (slen + 1 + p.longjt + p.longjf);
      p.offset := ftail;
      CopyStmts(p.stmts, ftail);
      TargetsInside(g, at, old(fstart[..]), old(ftail), p.key);
      ok := Terminate(p, ftail + slen, g[p.key], ftail, at[p.key := ftail]);
      if ok {
        ghost var was, prog := old(fstart[..]), fstart[..];
        forall i: nat | i < old(ftail) && i < |prog|
          ensures if i < ftail then prog[i].Plain? else JumpsInside(prog, i)
        {
          assert was[i].Plain? && (i < ftail ==> prog[i] == was[i]);
          assert ftail <= i < ftail + slen ==> prog[ftail + (i - ftail)] == Plain(Live(p.stmts)[i - ftail]);
        }
        PlacedOneMore(g, at, old(fstart[..]), fstart[..], old(ftail), p.key, ftail);
      }
    }

    /** Places p, or raises one of its flags. */
    method Place(p: Block, ghost S: set<Block>, ghost hp: Heap, ghost g: Net, ghost w: seq<nat>,
                 ghost stack: set<Id>, ghost at: Offsets)
      returns (ok: bool, ghost w': seq<nat>, ghost at': Offsets)
      requires Sized(S, hp, g, w) && Points(hp, p, p.key)
      requires at.Keys !! stack + {p.key} && p.key !in stack
      requires w[p.key] <= ftail <= fstart.Length && AllCoded(g, at, fstart[..], ftail)
      requires forall k :: k in at ==> at[k] == hp[k].offset
      requires !g[p.key].term.Ret? ==> g[p.key].jt in at && g[p.key].jf in at
      modifies p`offset, p`longjt, p`longjf, `ftail, fstart
      ensures Sized(S, hp, g, w') && p.key < |w| && w' == if ok then w else w[p.key := w[p.key] + 1]
      ensures ok ==> p.offset == ftail == old(ftail) - w[p.key]
      ensures ok ==> at'.Keys + stack == at.Keys + stack + {p.key} && at'.Keys !! stack && p.key in at'
      ensures ok ==> forall k :: k in at ==> k in at'
      ensures ok ==> AllCoded(g, at', fstart[..], ftail) && forall k :: k in at' ==> at'[k] == hp[k].offset
    {
      assert g[p.key].stmts == p.stmts;
      forall k | 0 <= k < |g| && k != p.key ensures hp[k] != p {
        assert g[k].stmts == hp[k].stmts;
      }
      ok := Emit(p, g, at);
      at' := at[p.key := ftail];
      w' := if ok then w else w[p.key := w[p.key] + 1];
      forall k | 0 <= k < |g| && k != p.key ensures w'[k] == |Live(g[k].stmts)| + 1 + hp[k].longjt + hp[k].longjf {
        assert hp[k] != p && hp[k].longjt == old(hp[k].longjt);
      }
      forall k | k in at && ok ensures at[k] == hp[k].offset {
        assert hp[k] != p;
      }
    }

    /** Places the unmarked blocks below p, last one first, ending at the tail; at records the
        blocks in place. The other marked blocks, those of stack, are ranked above p. A failure
        has raised one flag, so that one block needs one instruction more. */
    method ConvertCodeR(p: Block?, ghost S: set<Block>, ghost hp: Heap, ghost g: Net, ghost rk: Rank,
                        ghost w: seq<nat>, ghost stack: set<Id>, ghost at: Offsets)
      returns (ok: bool, ghost w': seq<nat>, ghost at': Offsets)
      requires Ranked(g, rk) && Sized(S, hp, g, w) && Marks(S, hp, at.Keys + stack)
      requires p != null ==> Points(hp, p, p.key)
      requires at.Keys !! stack && forall k :: k in stack && p != null ==> k < |g| && rk[k] > rk[p.key]
      requires AllCoded(g, at, fstart[..], ftail) && forall k :: k in at ==> at[k] == hp[k].offset
      requires (if p == null then 0 else Tally(g, rk, w, p.key, at.Keys + stack, false)) <= ftail <= fstart.Length
      modifies S`mark, S`offset, S`longjt, S`longjf, `ftail, fstart
      ensures Sized(S, hp, g, w') && forall k {:trigger hp[k]} :: 0 <= k < |hp| ==> hp[k].mark <= curMark
      ensures if ok then w' == w else exists c :: 0 <= c < |w| && w' == w[c := w[c] + 1]
      ensures ok ==> Marks(S, hp, at'.Keys + stack) && at'.Keys !! stack
      ensures ok ==> AllCoded(g, at', fstart[..], ftail) && forall k :: k in at' ==> at'[k] == hp[k].offset
      ensures ok ==> forall k :: k in at ==> k in at'
      ensures ok && p == null ==> at' == at && ftail == old(ftail)
      ensures ok && p != null ==>
        p.key in at' && at'.Keys + stack == Visit(g, rk, p.key, at.Keys + stack, false)
      ensures ok && p != null ==> ftail == old(ftail) - Tally(g, rk, w, p.key, at.Keys + stack, false)
      ensures ok && p != null && p.key !in at ==> p.offset == ftail
      decreases if p == null then 0 else rk[p.key] + 1, 1
    {
      ok, w', at' := true, w, at;
      if p == null || p.mark == curMark {
        return;
      }
      ok, w', at' := ConvertSuccessors(p, S, hp, g, rk, w, stack, at);
      if ok {
        ok, w', at' := Place(p, S, hp, g, w, stack, at');
      }
    }

    /** Marks p and places what is unmarked below it, leaving p itself to be placed. */
    method ConvertSuccessors(p: Block, ghost S: set<Block>, ghost hp: Heap, ghost g: Net, ghost rk: Rank,
                             ghost w: seq<nat>, ghost stack: set<Id>, ghost at: Offsets)
      returns (ok: bool, ghost w': seq<nat>, ghost at': Offsets)
      requires Ranked(g, rk) && Sized(S, hp, g, w) && Points(hp, p, p.key)
      requires p.key !in at && p.key !in stack && Marks(S, hp, at.Keys + stack)
      requires at.Keys !! stack && forall k :: k in stack ==> k < |g| && rk[k] > rk[p.key]
      requires AllCoded(g, at, fstart[..], ftail) && forall k :: k in at ==> at[k] == hp[k].offset
      requires Tally(g, rk, w, p.key, at.Keys + stack, false) <= ftail <= fstart.Length
      modifies S`mark, S`offset, S`longjt, S`longjf, `ftail, fstart
      ensures Sized(S, hp, g, w') && forall k {:trigger hp[k]} :: 0 <= k < |hp| ==> hp[k].mark <= curMark
      ensures if ok then w' == w else exists c :: 0 <= c < |w| && w' == w[c := w[c] + 1]
      ensures ok ==> Marks(S, hp, at'.Keys + stack + {p.key}) && at'.Keys !! stack + {p.key}
      ensures ok ==> AllCoded(g, at', fstart[..], ftail) && forall k :: k in at' ==> at'[k] == hp[k].offset
      ensures ok ==> forall k :: k in at ==> k in at'
      ensures ok && !g[p.key].term.Ret? ==> g[p.key].jt in at' && g[p.key].jf in at'
      ensures ok ==> at'.Keys + stack + {p.key} == Visit(g, rk, p.key, at.Keys + stack, false)
      ensures ok ==> ftail == old(ftail) - (Tally(g, rk, w, p.key, at.Keys + stack, false) - w[p.key])
      decreases rk[p.key] + 1, 0
    {
      assert g[p.key].stmts == p.stmts;
      p.mark := curMark;
      ghost var stack' := stack + {p.key};
      assert at.Keys + stack' == at.Keys + stack + {p.key};
      ok, w', at' := ConvertCodeR(p.jf, S, hp, g, rk, w, stack', at);
      if ok {
        ok, w', at' := ConvertCodeR(p.jt, S, hp, g, rk, w, stack', at');
        assert at'.Keys + stack' == at'.Keys + stack + {p.key};
      }
    }

    /** One attempt: count, allocate, convert. */
    method Attempt(root: Block, ghost S: set<Block>, ghost hp: Heap, ghost g: Net, ghost rk: Rank, ghost w: seq<nat>)
      returns (ok: bool, lenp: nat, ghost w': seq<nat>)
      requires Ranked(g, rk) && Points(hp, root, root.key) && Sized(S, hp, g, w)
      requires forall k {:trigger hp[k]} :: 0 <= k < |hp| ==> hp[k].mark <= curMark
      modifies this, S`mark, S`offset, S`longjt, S`longjf
      ensures Sized(S, hp, g, w') && forall k {:trigger hp[k]} :: 0 <= k < |hp| ==> hp[k].mark <= curMark
      ensures if ok then w' == w else exists c :: 0 <= c < |w| && w' == w[c := w[c] + 1]
      ensures Within(Reach(g, rk, root.key), w) && fresh(fstart)
      ensures fstart.Length == lenp == Sum(w, Reach(g, rk, root.key))
      ensures ok ==> exists at :: root.key in at && at[root.key] == 0 && AllCoded(g, at, fstart[..], 0)
    {
      lenp := Allocate(root, S, hp, g, rk, w);
      ghost var none: Offsets := map[];
      ghost var at;
      assert none.Keys + {} == {} && AllCoded(g, none, fstart[..], ftail);
      ok, w', at := ConvertCodeR(root, S, hp, g, rk, w, {}, none);
    }

    /** Counts the room the program needs. */
    method CountAll(root: Block, ghost S: set<Block>, ghost hp: Heap, ghost g: Net, ghost rk: Rank, ghost w: seq<nat>)
      returns (n: nat)
      requires Ranked(g, rk) && Points(hp, root, root.key) && Sized(S, hp, g, w)
      requires forall k {:trigger hp[k]} :: 0 <= k < |hp| ==> hp[k].mark <= curMark
      modifies `curMark, S`mark
      ensures Sized(S, hp, g, w) && Within(Reach(g, rk, root.key), w) && n == Sum(w, Reach(g, rk, root.key))
      ensures forall k {:trigger hp[k]} :: 0 <= k < |hp| ==> hp[k] in S && hp[k].key == k && hp[k].mark <= curMark
    {
      curMark := curMark + 1;
      ghost var marked;
      forall k | 0 <= k < |hp| ensures hp[k] in S && hp[k].key == k {
        assert g[k].stmts == hp[k].stmts;
      }
      n, marked := CountStmts(root, S, hp, g, rk, w, {});
      WalkSums(g, rk, w, root.key);
    }

    /** Allocates it. */
    method Allocate(root: Block, ghost S: set<Block>, ghost hp: Heap, ghost g: Net, ghost rk: Rank, ghost w: seq<nat>)
      returns (lenp: nat)
      requires Ranked(g, rk) && Points(hp, root, root.key) && Sized(S, hp, g, w)
      requires forall k {:trigger hp[k]} :: 0 <= k < |hp| ==> hp[k].mark <= curMark
      modifies this, S`mark
      ensures Sized(S, hp, g, w) && Marks(S, hp, {}) && Within(Reach(g, rk, root.key), w)
      ensures fresh(fstart) && fstart.Length == ftail == lenp == Sum(w, Reach(g, rk, root.key))
      ensures lenp == Tally(g, rk, w, root.key, {}, false) && Tidy(fstart[..], ftail)
    {
      lenp := CountAll(root, S, hp, g, rk, w);
      fstart := new Insn[lenp](_ => Plain(LdImm(0)));
      ftail := lenp;
      curMark := curMark + 1;
      WalkSums(g, rk, w, root.key);
    }

    lemma InitialSizes(S: set<Block>, hp: Heap, g: Net) returns (w: seq<nat>)
      requires Stored(S, hp, g)
      requires forall k {:trigger hp[k]} :: 0 <= k < |hp| ==> hp[k].longjt <= 1 && hp[k].longjf <= 1
      ensures Sized(S, hp, g, w)
    {
      w := [];
      for i := 0 to |g|
        invariant |w| == i
        invariant forall k {:trigger g[k]} :: 0 <= k < i ==>
          w[k] == |Live(g[k].stmts)| + 1 + hp[k].longjt + hp[k].longjf
      {
        w := w + [|Live(g[i].stmts)| + 1 + hp[i].longjt + hp[i].longjf];
      }
    }

    /** The finished program: as long as count_stmts says, every jump forward within eight bits
        and to an instruction of the program, and returning on every packet, from any state, the
        word the graph returns. */
    method IcodeToFcode(root: Block, ghost S: set<Block>, ghost hp: Heap, ghost g: Net, ghost rk: Rank)
      returns (fp: array<Insn>, lenp: nat, ghost w: seq<nat>)
      requires Stored(S, hp, g) && Ranked(g, rk) && Points(hp, root, root.key)
      requires forall k {:trigger hp[k]} :: 0 <= k < |hp| ==>
        hp[k].mark <= curMark && hp[k].longjt <= 1 && hp[k].longjf <= 1
      modifies this, S`mark, S`offset, S`longjt, S`longjf
      ensures fresh(fp) && Sized(S, hp, g, w) && Within(Reach(g, rk, root.key), w)
      ensures fp.Length == lenp == Sum(w, Reach(g, rk, root.key))
      ensures forall i: nat :: i < fp.Length ==> JumpsInside(fp[..], i)
      ensures forall i: nat :: i < fp.Length && fp[i].Cond? ==>
        i + 1 + fp[i].jt < fp.Length && i + 1 + fp[i].jf < fp.Length
      ensures forall i: nat :: i < fp.Length && fp[i].Always? ==> i + 1 + fp[i].dist < fp.Length
      ensures forall st: State, p: Packet :: RunProg(fp[..], 0, st, p) == Some(Run(g, rk, root.key, st, p))
    {
      w := InitialSizes(S, hp, g);
      lenp := 0;
      var ok := false;
      while !ok
        invariant Sized(S, hp, g, w) && forall k {:trigger hp[k]} :: 0 <= k < |hp| ==> hp[k].mark <= curMark
        invariant ok ==> Within(Reach(g, rk, root.key), w) && fresh(fstart)
        invariant ok ==> fstart.Length == lenp == Sum(w, Reach(g, rk, root.key))
        invariant ok ==> exists at :: root.key in at && at[root.key] == 0 && AllCoded(g, at, fstart[..], 0)
        decreases !ok, Slack(g, w)
      {
        ghost var w';
        ok, lenp, w' := Attempt(root, S, hp, g, rk, w);
        if !ok {
          ghost var c :| 0 <= c < |w| && w' == w[c := w[c] + 1];
          SlackDrops(g, w, c);
          w := w';
        }
      }
      fp := fstart;
      ghost var at :| root.key in at && at[root.key] == 0 && AllCoded(g, at, fp[..], 0);
      forall i: nat | i < fp.Length ensures JumpsInside(fp[..], i) {
        assert fp[..][i] == fp[..][i];
      }
      forall st: State, p: Packet ensures RunProg(fp[..], 0, st, p) == Some(Run(g, rk, root.key, st, p)) {
        LayoutKeepsVerdict(g, rk, at, fp[..], 0, root.key, st, p);
      }
    }
  }
}
