/** intern_blocks: equal blocks are merged, round after round, until none are left. */
module Intern {
  import opened Bpf
  import opened Graph
  import opened Layout
  import opened Levels

  // ----- equality of blocks -----

  /** eq_slist */
  method EqSlist(x: seq<Stmt>, y: seq<Stmt>) returns (eq: bool)
    ensures eq == (Live(x) == Live(y))
  {
    var i, j := 0, 0;
    while true
      invariant i <= |x| && j <= |y|
      invariant (Live(x[i..]) == Live(y[j..])) == (Live(x) == Live(y))
      decreases |x| - i + |y| - j
    {
      while i < |x| && x[i] == Nop
        invariant i <= |x| && (Live(x[i..]) == Live(y[j..])) == (Live(x) == Live(y))
      {
        assert x[i..][1..] == x[i + 1..];
        i := i + 1;
      }
      while j < |y| && y[j] == Nop
        invariant j <= |y| && (Live(x[i..]) == Live(y[j..])) == (Live(x) == Live(y))
      {
        assert y[j..][1..] == y[j + 1..];
        j := j + 1;
      }
      if i == |x| || j == |y| {
        return i == |x| && j == |y|;
      }
      assert Live(x[i..]) == [x[i]] + Live(x[i + 1..]) by { assert x[i..][1..] == x[i + 1..]; }
      assert Live(y[j..]) == [y[j]] + Live(y[j + 1..]) by { assert y[j..][1..] == y[j + 1..]; }
      if x[i] != y[j] {
        assert Live(x[i..])[0] != Live(y[j..])[0];
        return false;
      }
      assert Live(x[i..])[1..] == Live(x[i + 1..]) && Live(y[j..])[1..] == Live(y[j + 1..]);
      i, j := i + 1, j + 1;
    }
  }

  /** Two blocks test or return alike, lead to the same blocks and do the same. */
  predicate Same(n: Node, m: Node) {
    n.term == m.term && (n.term.Ret? || (n.jt == m.jt && n.jf == m.jf)) && Live(n.stmts) == Live(m.stmts)
  }

  method EqBlk(n: Node, m: Node) returns (eq: bool)
    ensures eq == Same(n, m)
  {
    eq := n.term == m.term && (n.term.Ret? || (n.jt == m.jt && n.jf == m.jf));
    if eq {
      eq := EqSlist(n.stmts, m.stmts);
    }
  }

  lemma SameRun(g: Net, rk: Rank, b: Id, c: Id, st: State, p: Packet)
    requires Ranked(g, rk) && b < |g| && c < |g| && Same(g[b], g[c])
    ensures Run(g, rk, b, st, p) == Run(g, rk, c, st, p)
  {
    LiveKeepsMeaning(g[b].stmts, st, p);
    LiveKeepsMeaning(g[c].stmts, st, p);
  }

  // ----- one round -----

  /** h holds the height of every block. */
  ghost predicate Heights(g: Net, h: Rank) {
    && |h| == |g|
    && forall b {:trigger g[b]} :: 0 <= b < |g| ==>
      if g[b].term.Ret? then h[b] == 0
      else g[b].jt < |g| && g[b].jf < |g| && h[b] == Max(h[g[b].jt], h[g[b].jf]) + 1
  }

  lemma HeightsExist(g: Net, rk: Rank) returns (h: Rank)
    requires Ranked(g, rk)
    ensures Heights(g, h)
  {
    h := seq(|g|, b requires 0 <= b < |g| => Height(g, rk, b));
  }

  lemma HeightsRank(g: Net, h: Rank)
    requires Heights(g, h)
    ensures Ranked(g, h)
  {
  }

  type Links = seq<Option<Id>>

  /** Every link leads up to a block that is the same. */
  ghost predicate Linked(g: Net, link: Links) {
    && |link| == |g|
    && forall b {:trigger link[b]} :: 0 <= b < |g| && link[b].Some? ==>
      b < link[b].value < |g| && Same(g[b], g[link[b].value])
  }

  function Follow(link: Links, c: Id): Id {
    if c < |link| && link[c].Some? then link[c].value else c
  }

  function Relinked(n: Node, link: Links): Node {
    if n.term.Ret? then n else n.(jt := Follow(link, n.jt), jf := Follow(link, n.jf))
  }

  ghost predicate Round(g: Net, g': Net, link: Links) {
    |g'| == |g| && forall b {:trigger g'[b]} :: 0 <= b < |g| ==> g'[b] == Relinked(g[b], link)
  }

  lemma SameHeight(g: Net, h: Rank, link: Links, c: Id)
    requires Heights(g, h) && Linked(g, link) && c < |g|
    ensures Follow(link, c) < |g| && h[Follow(link, c)] == h[c]
  {
    var d := Follow(link, c);
    assert g[c] == g[c] && g[d] == g[d];
  }

  lemma RoundHeights(g: Net, g': Net, h: Rank, link: Links)
    requires Heights(g, h) && Linked(g, link) && Round(g, g', link)
    ensures Heights(g', h)
  {
    forall b | 0 <= b < |g'|
      ensures if g'[b].term.Ret? then h[b] == 0
              else g'[b].jt < |g| && g'[b].jf < |g| && h[b] == Max(h[g'[b].jt], h[g'[b].jf]) + 1
    {
      assert g[b] == g[b];
      if !g[b].term.Ret? {
        SameHeight(g, h, link, g[b].jt);
        SameHeight(g, h, link, g[b].jf);
      }
    }
  }

  /** A round keeps the verdict from every block. */
  lemma {:induction false} RoundKeepsVerdict(g: Net, g': Net, h: Rank, link: Links, b: Id, st: State, p: Packet)
    requires Heights(g, h) && Linked(g, link) && Round(g, g', link) && b < |g|
    ensures Ranked(g, h) && Ranked(g', h) && Run(g', h, b, st, p) == Run(g, h, b, st, p)
    decreases h[b]
  {
    RoundHeights(g, g', h, link);
    HeightsRank(g, h);
    HeightsRank(g', h);
    assert g'[b] == Relinked(g[b], link);
    if !g[b].term.Ret? {
      var st' := ExecAll(g[b].stmts, st, p);
      var c, d := Choose(g[b], st'), Choose(g'[b], st');
      SameHeight(g, h, link, c);
      RoundKeepsVerdict(g, g', h, link, d, st', p);
      if d != c {
        assert link[c].Some?;
        SameRun(g, h, c, d, st', p);
      }
    }
  }

  // ----- termination -----

  /** How far up the successors of a block can still go. */
  function Room(n: Node, size: nat): nat {
    if n.term.Ret? then 0
    else (if n.jt < size then size - n.jt else 0) + (if n.jf < size then size - n.jf else 0)
  }

  function TotalRoom(g: seq<Node>, size: nat): nat {
    if g == [] then 0 else Room(g[0], size) + TotalRoom(g[1..], size)
  }

  lemma {:induction false} RoomShrinks(g: seq<Node>, g': seq<Node>, size: nat)
    requires |g'| == |g| && forall b {:trigger g'[b]} :: 0 <= b < |g| ==> Room(g'[b], size) <= Room(g[b], size)
    ensures TotalRoom(g', size) <= TotalRoom(g, size)
    ensures (exists b {:trigger g'[b]} :: 0 <= b < |g| && Room(g'[b], size) < Room(g[b], size)) ==>
      TotalRoom(g', size) < TotalRoom(g, size)
    decreases |g|
  {
    if g != [] {
      RoomShrinks(g[1..], g'[1..], size);
      assert g'[0] == g'[0];
      if b :| 0 <= b < |g| && Room(g'[b], size) < Room(g[b], size) {
        if b > 0 {
          assert g'[1..][b - 1] == g'[b] && g[1..][b - 1] == g[b];
        }
      }
    }
  }

  lemma RoundShrinks(g: Net, g': Net, h: Rank, link: Links)
    requires Heights(g, h) && Linked(g, link) && Round(g, g', link)
    ensures TotalRoom(g', |g|) <= TotalRoom(g, |g|)
    ensures (exists b {:trigger g'[b]} :: 0 <= b < |g| && g'[b] != g[b]) ==> TotalRoom(g', |g|) < TotalRoom(g, |g|)
  {
    forall b | 0 <= b < |g|
      ensures Room(g'[b], |g|) <= Room(g[b], |g|) && (g'[b] != g[b] ==> Room(g'[b], |g|) < Room(g[b], |g|))
    {
      assert g[b] == g[b];
    }
    RoomShrinks(g, g', |g|);
  }

  /** Every pair of equal marked blocks has been noticed, at the lower one. */
  ghost predicate Noticed(g: Net, M: set<Id>, link: Links, from: nat) {
    && |link| == |g|
    && forall b, c: Id {:trigger g[b], g[c]} ::
         from <= b < c < |g| && b in M && c in M && Same(g[b], g[c]) ==> link[b].Some?
  }

  class Interner {
    const net: array<Node>
    const link: array<Option<Id>>
    const mark: array<nat>
    var curMark: nat

    ghost predicate Sized()
      reads this
    {
      net.Length == link.Length == mark.Length
    }

    ghost predicate Marks(M: set<Id>)
      reads this`curMark, mark
    {
      forall b: Id :: b < mark.Length ==> mark[b] <= curMark && (mark[b] == curMark <==> b in M)
    }

    constructor (net: array<Node>)
      ensures Sized() && Marks({}) && this.net == net && fresh(link) && fresh(mark)
    {
      this.net := net;
      link := new Option<Id>[net.Length];
      mark := new nat[net.Length](_ => 0);
      curMark := 1;
    }

    /** make_marks */
    method MakeMarks(b: Id, ghost h: Rank, ghost M: set<Id>)
      requires Sized() && Ranked(net[..], h) && b < net.Length && Marks(M)
      modifies mark
      ensures Marks(Visit(net[..], h, b, M, true))
      decreases h[b]
    {
      if mark[b] != curMark {
        mark[b] := curMark;
        assert Marks(M + {b});
        if !net[b].term.Ret? {
          MakeMarks(net[b].jt, h, M + {b});
          MakeMarks(net[b].jf, h, Visit(net[..], h, net[b].jt, M + {b}, true));
        }
      }
    }

    /** mark_code */
    method MarkCode(root: Id, ghost h: Rank, ghost M: set<Id>)
      requires Sized() && Ranked(net[..], h) && root < net.Length && Marks(M)
      modifies mark, this`curMark
      ensures Marks(Reach(net[..], h, root))
    {
      curMark := curMark + 1;
      assert Marks({});
      MakeMarks(root, h, {});
      WalkMeasuresReach(net[..], h, h, root, {}, true);
      assert {} + Reach(net[..], h, root) == Reach(net[..], h, root);
    }

    /** The search of intern_blocks for a later block that is the same as block i. */
    method FindSame(i: Id, ghost M: set<Id>)
      requires Sized() && Marks(M) && i < net.Length && i in M && link[i] == None && Linked(net[..], link[..])
      requires Noticed(net[..], M, link[..], i + 1)
      modifies link
      ensures Linked(net[..], link[..]) && Noticed(net[..], M, link[..], i)
      ensures forall b: Id :: b < link.Length && b != i ==> link[b] == old(link[b])
    {
      ghost var g := net[..];
      var j := i + 1;
      while j < net.Length
        invariant i < j <= net.Length && link[..] == old(link[..])
        invariant forall c: Id {:trigger g[c]} :: i < c < j && c in M ==> !Same(g[i], g[c])
      {
        if mark[j] == curMark {
          var eq := EqBlk(net[i], net[j]);
          if eq {
            ghost var before := link[..];
            link[i] := Some(if link[j].Some? then link[j].value else j);
            LinkedNext(g, before, i, j, link[..]);
            return;
          }
        }
        j := j + 1;
      }
    }

    method FindLinks(ghost M: set<Id>)
      requires Sized() && Marks(M) && net.Length > 0
      modifies link
      ensures Linked(net[..], link[..]) && Noticed(net[..], M, link[..], 0)
    {
      for i := 0 to link.Length
        invariant forall b: Id :: b < i ==> link[b] == None
      {
        link[i] := None;
      }
      for i := net.Length - 1 downto 0
        invariant Linked(net[..], link[..]) && Noticed(net[..], M, link[..], i)
        invariant forall b: Id :: b < i ==> link[b] == None
      {
        if mark[i] == curMark {
          FindSame(i, M);
        }
      }
    }

    /** Sends the successors of block i to the blocks they are linked to. */
    method RelinkOne(i: Id, ghost h: Rank, ghost g: Net) returns (same: bool)
      requires net.Length == link.Length == |g| && i < |g| && net[i] == g[i] && Heights(g, h) && Linked(g, link[..])
      modifies net
      ensures net[i] == Relinked(g[i], link[..]) && forall k :: 0 <= k < net.Length && k != i ==> net[k] == old(net[k])
      ensures same <==> net[i] == g[i]
      ensures same ==> Settled([g[i]], link[..])
    {
      same := true;
      if !net[i].term.Ret? {
        if link[net[i].jt].Some? {
          same := false;
          net[i] := net[i].(jt := link[net[i].jt].value);
        }
        if link[net[i].jf].Some? {
          same := false;
          net[i] := net[i].(jf := link[net[i].jf].value);
        }
      }
    }

    /** The loop that sends every successor to the block it is linked to. */
    method Relink(ghost h: Rank) returns (done: bool)
      requires Sized() && Heights(net[..], h) && Linked(net[..], link[..])
      modifies net
      ensures Round(old(net[..]), net[..], link[..])
      ensures done ==> net[..] == old(net[..]) && Settled(net[..], link[..])
      ensures !done ==> exists b {:trigger net[..][b]} :: 0 <= b < net.Length && net[..][b] != old(net[..])[b]
    {
      ghost var g := net[..];
      done := true;
      for i := 0 to net.Length
        invariant forall b :: 0 <= b < net.Length ==> net[b] == if b < i then Relinked(g[b], link[..]) else g[b]
        invariant done ==> Settled(g[..i], link[..]) && forall b :: 0 <= b < i ==> net[b] == g[b]
        invariant !done ==> exists b :: 0 <= b < i && net[b] != g[b]
      {
        assert g[..i + 1] == g[..i] + [g[i]];
        assert g[i] == g[i];
        var same := RelinkOne(i, h, g);
        done := done && same;
      }
      assert g[..net.Length] == g;
    }

    /** One round: the code is marked, equal blocks are noticed, and the edges to them redirected. */
    method InternRound(root: Id, ghost h: Rank, ghost M: set<Id>) returns (done1: bool)
      requires Sized() && Heights(net[..], h) && Ranked(net[..], h) && root < net.Length && Marks(M)
      modifies net, link, mark, this`curMark
      ensures Heights(net[..], h) && Ranked(net[..], h) && Marks(Reach(old(net[..]), h, root))
      ensures forall st: State, p: Packet :: Run(net[..], h, root, st, p) == Run(old(net[..]), h, root, st, p)
      ensures if done1 then net[..] == old(net[..])
              else TotalRoom(net[..], net.Length) < TotalRoom(old(net[..]), net.Length)
      ensures done1 ==> forall b, c: Id :: b in Reach(net[..], h, root) && c in Reach(net[..], h, root) && b < c ==>
        (net[b].term == net[c].term && (net[b].term.Ret? || (net[b].jt == net[c].jt && net[b].jf == net[c].jf)) ==>
           Live(net[b].stmts) != Live(net[c].stmts))
    {
      ghost var g := net[..];
      MarkCode(root, h, M);
      ghost var marked := Reach(g, h, root);
      FindLinks(marked);
      ghost var links := link[..];
      done1 := Relink(h);
      RoundShrinks(g, net[..], h, links);
      RoundHeights(g, net[..], h, links);
      HeightsRank(net[..], h);
      forall st: State, p: Packet ensures Run(net[..], h, root, st, p) == Run(g, h, root, st, p) {
        RoundKeepsVerdict(g, net[..], h, links, root, st, p);
      }
      if done1 {
        forall b, c: Id | b in Reach(g, h, root) && c in Reach(g, h, root) && b < c
          && g[b].term == g[c].term && (g[b].term.Ret? || (g[b].jt == g[c].jt && g[b].jf == g[c].jf))
          ensures Live(g[b].stmts) != Live(g[c].stmts)
        {
          NoneSame(g, h, root, links, b, c);
        }
      }
    }

    /** intern_blocks: it ends, the verdict of every packet is kept, and no two blocks that the
        root reaches are the same any more. */
    method InternBlocks(root: Id, ghost rk: Rank, ghost M: set<Id>) returns (ghost h: Rank)
      requires Sized() && Ranked(net[..], rk) && root < net.Length && Marks(M)
      modifies net, link, mark, this`curMark
      ensures Ranked(net[..], h)
      ensures forall st: State, p: Packet :: Run(net[..], h, root, st, p) == Run(old(net[..]), rk, root, st, p)
      ensures forall b, c: Id :: b in Reach(net[..], h, root) && c in Reach(net[..], h, root) && b < c ==>
        (net[b].term == net[c].term && (net[b].term.Ret? || (net[b].jt == net[c].jt && net[b].jf == net[c].jf)) ==>
           Live(net[b].stmts) != Live(net[c].stmts))
    {
      ghost var g0 := net[..];
      h := HeightsExist(g0, rk);
      HeightsRank(g0, h);
      ghost var marked := M;
      forall st: State, p: Packet ensures Run(g0, h, root, st, p) == Run(g0, rk, root, st, p) {
        RunIgnoresRank(g0, h, rk, root, st, p);
      }
      var done1 := false;
      while !done1
        invariant Marks(marked) && Heights(net[..], h) && Ranked(net[..], h)
        invariant forall st: State, p: Packet :: Run(net[..], h, root, st, p) == Run(g0, rk, root, st, p)
        invariant done1 ==> forall b, c: Id :: b in Reach(net[..], h, root) && c in Reach(net[..], h, root) && b < c ==>
          (net[b].term == net[c].term && (net[b].term.Ret? || (net[b].jt == net[c].jt && net[b].jf == net[c].jf)) ==>
           Live(net[b].stmts) != Live(net[c].stmts))
        decreases !done1, TotalRoom(net[..], net.Length)
      {
        ghost var g := net[..];
        done1 := InternRound(root, h, marked);
        marked := Reach(g, h, root);
      }
    }
  }

  lemma {:induction false} ReachPred(g: Net, h: Rank, a: Id, b: Id) returns (p: Id)
    requires Ranked(g, h) && a < |g| && b in Reach(g, h, a) && b != a
    ensures p < |g| && p in Reach(g, h, a) && !g[p].term.Ret? && (g[p].jt == b || g[p].jf == b)
    decreases h[a]
  {
    if g[a].jt == b || g[a].jf == b {
      p := a;
    } else {
      p := ReachPred(g, h, if b in Reach(g, h, g[a].jt) then g[a].jt else g[a].jf, b);
    }
  }

  lemma NoneSame(g: Net, h: Rank, root: Id, link: Links, b: Id, c: Id)
    requires Heights(g, h) && root < |g| && Ranked(g, h) && Linked(g, link)
    requires Noticed(g, Reach(g, h, root), link, 0) && Settled(g, link)
    requires b in Reach(g, h, root) && c in Reach(g, h, root) && b < c
    requires g[b].term == g[c].term && (g[b].term.Ret? || (g[b].jt == g[c].jt && g[b].jf == g[c].jf))
    ensures Live(g[b].stmts) != Live(g[c].stmts)
  {
    if Live(g[b].stmts) == Live(g[c].stmts) {
      assert Same(g[b], g[c]) && link[b].Some? && g[c] == g[c];
      if b == root {
        ReachDescends(g, h, root, c);
      } else {
        var p := ReachPred(g, h, root, b);
      }
      assert false;
    }
  }

  /** No successor has a link. */
  ghost predicate Settled(g: seq<Node>, link: Links) {
    forall b {:trigger g[b]} :: 0 <= b < |g| && !g[b].term.Ret? ==>
      Follow(link, g[b].jt) == g[b].jt && Follow(link, g[b].jf) == g[b].jf
  }

  lemma LinkedNext(g: Net, link: Links, i: Id, j: Id, link': Links)
    requires Linked(g, link) && i < j < |g| && Same(g[i], g[j])
    requires link' == link[i := Some(if link[j].Some? then link[j].value else j)]
    ensures Linked(g, link')
  {
    forall b | 0 <= b < |g| && link'[b].Some? ensures b < link'[b].value < |g| && Same(g[b], g[link'[b].value]) {
      var there := link[j];
      if b != i {
        assert link[b] == link'[b];
      }
    }
  }
}
