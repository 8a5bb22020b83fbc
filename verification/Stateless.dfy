/** Graphs of blocks that define every atom they read: their runs depend on the packet alone. */
module Stateless {
  import opened Bpf
  import opened Graph
  import opened Liveness

  /** A state to run blocks from when it does not matter which. */
  function Blank(): State {
    seq(18, i => 0)
  }

  /** The block reads no atom before defining it. */
  predicate StateFree(n: Node) {
    LocalUd(n).use == {}
  }

  ghost predicate AllStateFree(g: Net, M: set<Id>) {
    forall b: Id {:trigger g[b]} :: b in M && b < |g| ==> StateFree(g[b])
  }

  /** The successors of the blocks of M are in M. */
  ghost predicate Closed(g: Net, M: set<Id>) {
    forall b: Id {:trigger g[b]} :: b in M && b < |g| && !g[b].term.Ret? ==>
      g[b].jt in M && g[b].jt < |g| && g[b].jf in M && g[b].jf < |g|
  }

  /** Nothing is ever read of the values on entry. */
  lemma {:induction false} NothingLive(g: Net, rk: Rank, M: set<Id>, b: Id)
    requires Ranked(g, rk) && Closed(g, M) && AllStateFree(g, M) && b in M && b < |g|
    ensures LiveIn(g, rk, b) == {}
    decreases rk[b]
  {
    assert g[b] == g[b];
    if !g[b].term.Ret? {
      NothingLive(g, rk, M, g[b].jt);
      NothingLive(g, rk, M, g[b].jf);
    }
  }

  /** The verdict of such blocks does not depend on the state. */
  lemma RunAlike(g: Net, rk: Rank, M: set<Id>, b: Id, st: State, st': State, p: Packet)
    requires Ranked(g, rk) && b in M && b < |g| && AllStateFree(g, M) && Closed(g, M)
    ensures Run(g, rk, b, st, p) == Run(g, rk, b, st', p)
  {
    NothingLive(g, rk, M, b);
    LiveSound(g, rk, b, st, st', p);
  }
}
