/** find_levels: the height of every block above the returns, and the blocks of each height. */
module Levels {
  import opened Graph

  function Max(a: nat, b: nat): nat {
    if a > b then a else b
  }

  ghost function Height(g: Net, rk: Rank, b: Id): nat
    requires Ranked(g, rk) && b < |g|
    decreases rk[b]
  {
    if g[b].term.Ret? then 0 else Max(Height(g, rk, g[b].jt), Height(g, rk, g[b].jf)) + 1
  }

  function FirstIds(n: nat): (s: set<Id>)
    ensures |s| == n && forall b: Id :: b in s <==> b < n
  {
    if n == 0 then {} else FirstIds(n - 1) + {n - 1}
  }

  lemma SubsetSize(s: set<Id>, t: set<Id>)
    requires s <= t
    ensures |s| <= |t|
  {
    assert t == s + (t - s);
  }

  /** Heights fit the levels array: a block of height h reaches more than h blocks. */
  lemma {:induction false} HeightFits(g: Net, rk: Rank, b: Id)
    requires Ranked(g, rk) && b < |g|
    ensures Height(g, rk, b) < |Reach(g, rk, b)| <= |g|
    decreases rk[b]
  {
    SubsetSize(Reach(g, rk, b), FirstIds(|g|));
    if !g[b].term.Ret? {
      var c := if Height(g, rk, g[b].jt) > Height(g, rk, g[b].jf) then g[b].jt else g[b].jf;
      HeightFits(g, rk, c);
      if b in Reach(g, rk, c) {
        ReachDescends(g, rk, c, b);
      }
      SubsetSize({b} + Reach(g, rk, c), Reach(g, rk, b));
    } else {
      assert |{b}| == 1;
    }
  }

  /** level holds the heights of the blocks of M, and levels lists each of them once, under
      its height. */
  ghost predicate Leveled(g: Net, rk: Rank, M: set<Id>, level: seq<nat>, levels: seq<seq<Id>>)
    requires Ranked(g, rk)
  {
    && |level| == |levels| == |g|
    && (forall b :: b in M ==> b < |g| && level[b] == Height(g, rk, b))
    && (forall i, b: Id {:trigger b in levels[i]} :: 0 <= i < |levels| ==>
         (b in levels[i] <==> b in M && level[b] == i))
    && forall i :: 0 <= i < |levels| ==> NoRepeats(levels[i])
  }

  ghost predicate NoRepeats(s: seq<Id>) {
    forall i, j :: 0 <= i < j < |s| ==> s[i] != s[j]
  }

  lemma {:induction false} LeveledAdd(g: Net, rk: Rank, M: set<Id>, level: seq<nat>, levels: seq<seq<Id>>, b: Id)
    requires Ranked(g, rk) && Leveled(g, rk, M, level, levels) && b < |g| && b !in M
    ensures Height(g, rk, b) < |g|
    ensures var h := Height(g, rk, b); Leveled(g, rk, M + {b}, level[b := h], levels[h := [b] + levels[h]])
  {
    HeightFits(g, rk, b);
    var h := Height(g, rk, b);
    var level', levels' := level[b := h], levels[h := [b] + levels[h]];
    assert b !in levels[h];
    forall i, c: Id | 0 <= i < |g| ensures c in levels'[i] <==> c in M + {b} && level'[c] == i {
      assert c in levels[i] <==> c in M && level[c] == i;
      assert levels'[i] == if i == h then [b] + levels[i] else levels[i];
      if i == h {
        assert c in [b] + levels[i] <==> c == b || c in levels[i];
      }
    }
    forall i | 0 <= i < |g| ensures NoRepeats(levels'[i]) {
      assert NoRepeats(levels[i]);
    }
  }

  /** The blocks of M below level i, and those of level i among the first j listed. */
  ghost predicate UpTo(done: set<Id>, M: set<Id>, level: seq<nat>, levels: seq<seq<Id>>, i: nat, j: nat)
    requires Within(M, level) && i < |levels| && j <= |levels[i]|
  {
    forall b: Id :: b in done <==> b in M && (level[b] < i || (level[b] == i && b in levels[i][..j]))
  }

  lemma UpToNext(done: set<Id>, M: set<Id>, level: seq<nat>, levels: seq<seq<Id>>, i: nat, j: nat)
    requires Within(M, level) && i < |levels| && j < |levels[i]| && UpTo(done, M, level, levels, i, j)
    requires forall b: Id :: b in levels[i] <==> b in M && level[b] == i
    requires NoRepeats(levels[i])
    ensures var p := levels[i][j]; p in M && p !in done && level[p] == i && UpTo(done + {p}, M, level, levels, i, j + 1)
  {
    assert levels[i][j] in levels[i];
    assert levels[i][..j + 1] == levels[i][..j] + [levels[i][j]];
  }

  class LevelFinder {
    const marked: array<bool>
    const level: array<nat>
    const levels: array<seq<Id>>

    ghost predicate Sized(n: nat)
      reads this
    {
      marked.Length == level.Length == levels.Length == n
    }

    ghost predicate Marks(M: set<Id>)
      reads marked
    {
      forall b: Id :: b < marked.Length ==> (marked[b] <==> b in M)
    }

    constructor (n: nat)
      ensures Sized(n) && fresh(marked) && fresh(level) && fresh(levels)
    {
      marked := new bool[n];
      level := new nat[n];
      levels := new seq<Id>[n];
    }

    /** find_levels_r. done are the blocks already listed; the other marked ones, those of
        stack, are ranked above b. */
    method FindLevelsR(b: Id, g: Net, ghost rk: Rank, ghost done: set<Id>, ghost stack: set<Id>)
      returns (ghost done': set<Id>)
      requires Ranked(g, rk) && b < |g| && Sized(|g|) && Marks(done + stack) && done !! stack
      requires forall k :: k in stack ==> k < |g| && rk[k] > rk[b]
      requires Leveled(g, rk, done, level[..], levels[..])
      modifies marked, level, levels
      ensures Marks(done' + stack) && done' !! stack && done <= done' && b in done'
      ensures done' + stack == Visit(g, rk, b, done + stack, true)
      ensures Leveled(g, rk, done', level[..], levels[..])
      decreases rk[b]
    {
      if marked[b] {
        return done;
      }
      marked[b] := true;
      ghost var stack' := stack + {b};
      assert done + stack' == done + stack + {b};
      done' := done;
      var lev := 0;
      if !g[b].term.Ret? {
        done' := FindLevelsR(g[b].jt, g, rk, done', stack');
        done' := FindLevelsR(g[b].jf, g, rk, done', stack');
        lev := Max(level[g[b].jt], level[g[b].jf]) + 1;
      }
      LeveledAdd(g, rk, done', level[..], levels[..], b);
      ghost var level', levels' := level[..][b := lev], levels[..][lev := [b] + levels[lev]];
      level[b] := lev;
      levels[lev] := [b] + levels[lev];
      assert level[..] == level' && levels[..] == levels';
      assert done' + stack' == done' + {b} + stack;
      done' := done' + {b};
    }

    method FindLevels(root: Id, g: Net, ghost rk: Rank)
      requires Ranked(g, rk) && root < |g| && Sized(|g|)
      modifies marked, level, levels
      ensures Leveled(g, rk, Reach(g, rk, root), level[..], levels[..])
    {
      for i := 0 to |g|
        invariant forall b: Id :: b < i ==> !marked[b] && levels[b] == []
      {
        marked[i] := false;
        levels[i] := [];
      }
      ghost var none: set<Id> := {};
      assert none + none == none;
      ghost var done := FindLevelsR(root, g, rk, none, none);
      WalkMeasuresReach(g, rk, level[..], root, none, true);
      assert done + none == done && none + Reach(g, rk, root) == Reach(g, rk, root);
    }
  }

  /** Every edge out of a reachable block goes to a reachable block one or more levels
      down, and the root has the top level. */
  lemma {:induction false} LowerLevels(g: Net, rk: Rank, root: Id, level: seq<nat>)
    requires Ranked(g, rk) && root < |g| && |level| == |g|
    requires forall b :: b in Reach(g, rk, root) ==> level[b] == Height(g, rk, b)
    ensures level[root] < |g|
    ensures forall b: Id {:trigger g[b]} :: b in Reach(g, rk, root) ==> b < |g| && level[b] <= level[root]
    ensures forall b: Id {:trigger g[b]} :: b in Reach(g, rk, root) && !g[b].term.Ret? ==>
      && g[b].jt in Reach(g, rk, root) && level[g[b].jt] < level[b]
      && g[b].jf in Reach(g, rk, root) && level[g[b].jf] < level[b]
    ensures forall b: Id {:trigger g[b]} :: b in Reach(g, rk, root) ==> (g[b].term.Ret? <==> level[b] == 0)
  {
    HeightFits(g, rk, root);
    forall b: Id | b in Reach(g, rk, root)
      ensures level[b] <= level[root]
      ensures !g[b].term.Ret? ==> g[b].jt in Reach(g, rk, root) && g[b].jf in Reach(g, rk, root)
    {
      HeightMonotone(g, rk, root, b);
      ReachTransitive(g, rk, root, b);
    }
  }

  lemma {:induction false} HeightMonotone(g: Net, rk: Rank, b: Id, c: Id)
    requires Ranked(g, rk) && b < |g| && c in Reach(g, rk, b)
    ensures Height(g, rk, c) <= Height(g, rk, b)
    decreases rk[b]
  {
    if c != b {
      HeightMonotone(g, rk, if c in Reach(g, rk, g[b].jt) then g[b].jt else g[b].jf, c);
    }
  }
}
