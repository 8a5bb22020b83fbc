/** Blocks as heap objects with mutable successors, and the graph they hold. */
module Blocks {
  import opened Bpf
  import opened Graph

  /** struct block, with the working fields of the passes modelled here. key names the
      block in the graph the heap holds. */
  class Block {
    ghost const key: Id
    var stmts: seq<Stmt>
    var term: Term
    var jt: Block?
    var jf: Block?
    var sense: bool
    var head: Block?
    var mark: int
    var longjt: nat
    var longjf: nat
    var offset: nat

    /** new_block */
    constructor (stmts: seq<Stmt>, term: Term, ghost key: Id)
      ensures this.stmts == stmts && this.term == term && this.key == key && jt == jf == null
      ensures !sense && head == this && mark == 0 && longjt == longjf == 0
    {
      this.key := key;
      this.stmts := stmts;
      this.term := term;
      jt, jf, head := null, null, this;
      sense := false;
      mark, longjt, longjf, offset := 0, 0, 0, 0;
    }
  }

  type Heap = seq<Block>

  /** Pointer q is to the object of hp named k. */
  ghost predicate Points(hp: Heap, q: Block?, k: Id) {
    k < |hp| && q == hp[k] && q.key == k
  }

  /** The object of hp named k is in S, has n's code, and points to the objects of n's
      successors. */
  ghost predicate Holds(S: set<Block>, hp: Heap, k: Id, n: Node)
    requires k < |hp|
    reads S`stmts, S`term, S`jt, S`jf
  {
    && hp[k] in S && hp[k].key == k && hp[k].stmts == n.stmts && hp[k].term == n.term
    && if n.term.Ret? then hp[k].jt == null && hp[k].jf == null
       else Points(hp, hp[k].jt, n.jt) && Points(hp, hp[k].jf, n.jf)
  }

  /** The objects of S hold the graph g, hp listing them by key. */
  ghost predicate Stored(S: set<Block>, hp: Heap, g: Net)
    reads S`stmts, S`term, S`jt, S`jf
  {
    |hp| == |g| && forall k {:trigger g[k]} :: 0 <= k < |g| ==> Holds(S, hp, k, g[k])
  }
}
