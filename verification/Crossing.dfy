/** Runs through a chain of tests that share one exit, and what happens to them when the last
    test of the chain comes first. */
module Crossing {
  import opened Bpf
  import opened Graph
  import opened Liveness

  /** The atoms the block defines. */
  function Defs(n: Node): set<Atom> {
    LocalUd(n).def
  }

  function AllDefs(ns: seq<Node>): set<Atom> {
    if ns == [] then {} else Defs(ns[0]) + AllDefs(ns[1..])
  }

  predicate Tests(ns: seq<Node>) {
    ns == [] || (!ns[0].term.Ret? && Tests(ns[1..]))
  }

  function After(n: Node, st: State, p: Packet): State {
    ExecAll(n.stmts, st, p)
  }

  predicate Fires(n: Node, or: bool, st: State, p: Packet)
    requires !n.term.Ret?
  {
    Decide(n.term, After(n, st, p)) == or
  }

  /** A run through the tests: out with the first that fires, or onward past all of them, and
      the state in the end. */
  datatype Passage = Passage(fired: bool, state: State)

  function Through(ns: seq<Node>, or: bool, st: State, p: Packet): Passage
    requires Tests(ns)
    decreases |ns|
  {
    if ns == [] then Passage(false, st)
    else if Fires(ns[0], or, st, p) then Passage(true, After(ns[0], st, p))
    else Through(ns[1..], or, After(ns[0], st, p), p)
  }

  /** States that agree wherever the block reads what it does not define agree afterwards, also
      on what it defines, and take the same branch. */
  lemma AfterAlike(n: Node, E: set<Atom>, st: State, st': State, p: Packet)
    requires LocalUd(n).use <= E && Agree(E, st, st')
    ensures Agree(E + Defs(n), After(n, st, p), After(n, st', p))
    ensures !n.term.Ret? ==> Decide(n.term, After(n, st, p)) == Decide(n.term, After(n, st', p))
  {
    var empty := Ud({}, {}, {});
    var scan := Scan(n.stmts, empty);
    ScanGrows(n.stmts, empty);
    ScanSound(n.stmts, empty, E, st, st', p);
    assert TermUses(n.term) <= scan.def + E;
  }

  /** Statements leave alone what they do not define. */
  lemma {:induction false} ScanFrame(ss: seq<Stmt>, ud: Ud, st: State, p: Packet, a: Atom)
    requires ud.kill <= ud.def && a !in Scan(ss, ud).def
    ensures ExecAll(ss, st, p)[a] == st[a]
    decreases ss
  {
    if ss != [] {
      var ud' := Write(Read(ud, Uses(ss[0])), Def(ss[0]));
      ScanGrows(ss[1..], ud');
      ScanFrame(ss[1..], ud', Exec(ss[0], st, p), p, a);
    }
  }

  lemma AfterFrame(n: Node, st: State, p: Packet)
    ensures forall a: Atom :: a !in Defs(n) ==> After(n, st, p)[a] == st[a]
  {
    forall a: Atom | a !in Defs(n) ensures After(n, st, p)[a] == st[a] {
      ScanFrame(n.stmts, Ud({}, {}, {}), st, p, a);
    }
  }

  lemma {:induction false} ThroughFrame(ns: seq<Node>, or: bool, st: State, p: Packet)
    requires Tests(ns)
    ensures forall a: Atom :: a !in AllDefs(ns) ==> Through(ns, or, st, p).state[a] == st[a]
    decreases |ns|
  {
    if ns != [] {
      AfterFrame(ns[0], st, p);
      if !Fires(ns[0], or, st, p) {
        ThroughFrame(ns[1..], or, After(ns[0], st, p), p);
      }
    }
  }

  lemma {:induction false} TestsAppend(ms: seq<Node>, ns: seq<Node>)
    ensures Tests(ms + ns) <==> Tests(ms) && Tests(ns)
    decreases |ms|
  {
    if ms == [] {
      assert ms + ns == ns;
    } else {
      assert (ms + ns)[1..] == ms[1..] + ns;
      TestsAppend(ms[1..], ns);
    }
  }

  lemma {:induction false} ThroughAppend(ms: seq<Node>, ns: seq<Node>, or: bool, st: State, p: Packet)
    requires Tests(ms) && Tests(ns) && Tests(ms + ns)
    ensures var way := Through(ms, or, st, p);
      Through(ms + ns, or, st, p) == if way.fired then way else Through(ns, or, way.state, p)
    decreases |ms|
  {
    if ms == [] {
      assert ms + ns == ns;
    } else {
      assert (ms + ns)[1..] == ms[1..] + ns;
      if !Fires(ms[0], or, st, p) {
        ThroughAppend(ms[1..], ns, or, After(ms[0], st, p), p);
      }
    }
  }

  // ----- a test that moves in front of others -----

  /** Neither do the tests read what pull defines, nor the other way round. */
  ghost predicate Apart(ns: seq<Node>, pull: Node) {
    && LocalUd(pull).use !! AllDefs(ns)
    && forall n :: n in ns ==> LocalUd(n).use !! Defs(pull)
  }

  /** The atoms that pull does not define. */
  ghost function Others(pull: Node): set<Atom> {
    set a: Atom | a !in Defs(pull)
  }

  /** Tests that read nothing of what pull defines pass the same way whether it ran before. */
  lemma {:induction false} ThroughAlike(ns: seq<Node>, pull: Node, or: bool, st: State, st': State, p: Packet)
    requires Tests(ns) && Apart(ns, pull) && Agree(Others(pull), st, st')
    ensures Through(ns, or, st, p).fired == Through(ns, or, st', p).fired
    ensures Agree(Others(pull), Through(ns, or, st, p).state, Through(ns, or, st', p).state)
    decreases |ns|
  {
    if ns != [] {
      AfterAlike(ns[0], Others(pull), st, st', p);
      if !Fires(ns[0], or, st, p) {
        ThroughAlike(ns[1..], pull, or, After(ns[0], st, p), After(ns[0], st', p), p);
      }
    }
  }

  /** The atoms live behind the exits: where the run may arrive past part of the tests, none of
      them defines any; where it arrives past all, none has two definitions whose order has
      changed. */
  ghost predicate Unseen(ns: seq<Node>, pull: Node, liveOut: set<Atom>, liveRest: set<Atom>) {
    && liveOut !! AllDefs(ns) && liveOut !! Defs(pull)
    && liveRest !! (AllDefs(ns) * Defs(pull))
  }

  /** The same way out, in states that do not differ where it matters there. */
  ghost predicate Alike(way: Passage, way': Passage, liveOut: set<Atom>, liveRest: set<Atom>) {
    && way'.fired == way.fired
    && Agree(if way.fired then liveOut else liveRest, way.state, way'.state)
  }

  /** A test may move in front of others that it is apart from. */
  lemma Crosses(ns: seq<Node>, pull: Node, or: bool, liveOut: set<Atom>, liveRest: set<Atom>, st: State, p: Packet)
    requires Tests(ns) && !pull.term.Ret? && Apart(ns, pull) && Unseen(ns, pull, liveOut, liveRest)
    requires Tests(ns + [pull]) && Tests([pull] + ns)
    ensures Alike(Through(ns + [pull], or, st, p), Through([pull] + ns, or, st, p), liveOut, liveRest)
  {
    var front := After(pull, st, p);
    var way, way' := Through(ns, or, st, p), Through(ns, or, front, p);
    ThroughAppend(ns, [pull], or, st, p);
    ThroughAppend([pull], ns, or, st, p);
    AfterFrame(pull, st, p);
    AfterFrame(pull, way.state, p);
    ThroughFrame(ns, or, st, p);
    ThroughFrame(ns, or, front, p);
    ThroughAlike(ns, pull, or, st, front, p);
    AfterAlike(pull, (set a: Atom | a !in AllDefs(ns)), st, way.state, p);
  }

  /** The ways data can flow that such a move cuts: from a test that is passed to the one that
      moves, from there to a test that is passed, and from either to what is read behind. */
  datatype Flow = Back | Ahead | PullOut | TestsOut | Onwards

  ghost predicate Flows(flow: Flow, ns: seq<Node>, pull: Node, liveOut: set<Atom>, liveRest: set<Atom>) {
    match flow
    case Back => !(LocalUd(pull).use !! AllDefs(ns))
    case Ahead => exists n :: n in ns && !(LocalUd(n).use !! Defs(pull))
    case PullOut => !(liveOut !! Defs(pull))
    case TestsOut => !(liveOut !! AllDefs(ns))
    case Onwards => !(liveRest !! (AllDefs(ns) * Defs(pull)))
  }

  /** A test is independent of those it passes, and of what is read behind them, exactly if data
      flows in none of these ways. */
  lemma NoFlow(ns: seq<Node>, pull: Node, liveOut: set<Atom>, liveRest: set<Atom>)
    ensures Apart(ns, pull) && Unseen(ns, pull, liveOut, liveRest) <==>
      forall flow: Flow :: !Flows(flow, ns, pull, liveOut, liveRest)
  {
    if forall flow: Flow :: !Flows(flow, ns, pull, liveOut, liveRest) {
      assert !Flows(Back, ns, pull, liveOut, liveRest) && !Flows(Ahead, ns, pull, liveOut, liveRest);
      assert !Flows(PullOut, ns, pull, liveOut, liveRest) && !Flows(TestsOut, ns, pull, liveOut, liveRest);
      assert !Flows(Onwards, ns, pull, liveOut, liveRest);
    }
  }

  ghost predicate OnlyFlow(flow: Flow, ns: seq<Node>, pull: Node, liveOut: set<Atom>, liveRest: set<Atom>) {
    forall other: Flow :: Flows(other, ns, pull, liveOut, liveRest) <==> other == flow
  }
}
