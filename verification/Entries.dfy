/** blktrace's counter of queued buffers, shared by the tracers that fill the queues and the
    consumer that empties them. */
module Entries {

  type Buffer = nat

  /** The consumer: deciding whether to wait, waiting, or on its way through the queues with
      the buffers in its hand, which come from queue at - 1, and the number it has handled. */
  datatype Consumer =
    | Deciding
    | Waiting(signalled: bool)
    | Sweeping(at: nat, hand: seq<Buffer>, handled: nat)

  /** One queue per device and CPU; per tracer the buffers it has queued but not yet counted and
      whether it has left; dp_entries; what has been handled and what has been queued ever. */
  datatype State = State(queues: seq<seq<Buffer>>, uncounted: seq<nat>, left: seq<bool>, entries: int,
                         consumer: Consumer, log: seq<seq<Buffer>>, sent: seq<seq<Buffer>>)

  datatype Action =
    | Enqueue(tracer: nat, queue: nat, buffer: Buffer)
    | Publish(tracer: nat)
    | Leave(tracer: nat)
    | Decide
    | Wake
    | Take
    | Handle
    | Settle

  predicate Enabled(s: State, a: Action) {
    match a
    case Enqueue(i, q, _) =>
      i < |s.left| && !s.left[i] && q < |s.queues| && |s.uncounted| == |s.left| && |s.sent| == |s.queues|
    case Publish(i) => i < |s.uncounted| && s.uncounted[i] > 0
    case Leave(i) => i < |s.left| && |s.uncounted| == |s.left| && s.uncounted[i] == 0
    case Decide => s.consumer.Deciding?
    case Wake => s.consumer == Waiting(true)
    case Take => s.consumer.Sweeping? && s.consumer.hand == [] && s.consumer.at < |s.queues|
    case Handle => s.consumer.Sweeping? && s.consumer.hand != [] && 0 < s.consumer.at <= |s.log|
    case Settle => s.consumer.Sweeping? && s.consumer.hand == [] && s.consumer.at == |s.queues|
  }

  /** One step: add_trace_buf, incr_entries, a tracer's end, the test and the wait of
      wait_empty_entries, taking over one queue, handling one buffer, decr_entries. */
  function Step(s: State, a: Action): State
    requires Enabled(s, a)
  {
    match a
    case Enqueue(i, q, b) =>
      s.(queues := s.queues[q := s.queues[q] + [b]], sent := s.sent[q := s.sent[q] + [b]],
         uncounted := s.uncounted[i := s.uncounted[i] + 1])
    case Publish(i) =>
      s.(consumer := if s.entries == 0 && s.consumer.Waiting? then Waiting(true) else s.consumer,
         entries := s.entries + s.uncounted[i], uncounted := s.uncounted[i := 0])
    case Leave(i) => s.(left := s.left[i := true])
    case Decide => s.(consumer := if s.entries == 0 then Waiting(false) else Sweeping(0, [], 0))
    case Wake => s.(consumer := Deciding)
    case Take =>
      var c := s.consumer;
      s.(consumer := Sweeping(c.at + 1, s.queues[c.at], c.handled), queues := s.queues[c.at := []])
    case Handle =>
      var c := s.consumer;
      s.(consumer := Sweeping(c.at, c.hand[1..], c.handled + 1),
         log := s.log[c.at - 1 := s.log[c.at - 1] + [c.hand[0]]])
    case Settle => s.(entries := s.entries - s.consumer.handled, consumer := Deciding)
  }

  function Total(q: seq<seq<Buffer>>): nat {
    if q == [] then 0 else |q[0]| + Total(q[1..])
  }

  function Sum(n: seq<nat>): nat {
    if n == [] then 0 else n[0] + Sum(n[1..])
  }

  lemma {:induction false} TotalUpdate(q: seq<seq<Buffer>>, i: nat, b: seq<Buffer>)
    requires i < |q|
    ensures Total(q[i := b]) == Total(q) - |q[i]| + |b|
    decreases |q|
  {
    if i > 0 {
      TotalUpdate(q[1..], i - 1, b);
      assert q[i := b][1..] == q[1..][i - 1 := b];
    } else {
      assert q[i := b][1..] == q[1..];
    }
  }

  lemma {:induction false} SumUpdate(n: seq<nat>, i: nat, x: nat)
    requires i < |n|
    ensures Sum(n[i := x]) == Sum(n) - n[i] + x
    decreases |n|
  {
    if i > 0 {
      SumUpdate(n[1..], i - 1, x);
      assert n[i := x][1..] == n[1..][i - 1 := x];
    } else {
      assert n[i := x][1..] == n[1..];
    }
  }

  function InHand(c: Consumer): nat {
    if c.Sweeping? then |c.hand| + c.handled else 0
  }

  function HandOf(c: Consumer, q: nat): seq<Buffer> {
    if c.Sweeping? && c.at == q + 1 then c.hand else []
  }

  /** dp_entries is the number of buffers queued or being handled less those not yet counted;
      every buffer queued has been handled, is in the consumer's hand or is in its queue, in
      this order; a consumer that waits without having been told otherwise has nothing to do;
      a tracer that has left has counted everything. */
  ghost predicate Invariant(s: State) {
    && |s.queues| == |s.log| == |s.sent| && |s.uncounted| == |s.left|
    && (s.consumer.Sweeping? ==> s.consumer.at <= |s.queues| && (s.consumer.at == 0 ==> s.consumer.hand == []))
    && s.entries == Total(s.queues) + InHand(s.consumer) - Sum(s.uncounted)
    && (forall q: nat {:trigger s.sent[q]} :: q < |s.sent| ==>
         s.log[q] + HandOf(s.consumer, q) + s.queues[q] == s.sent[q])
    && (s.consumer == Waiting(false) ==> s.entries == 0)
    && forall i: nat {:trigger s.left[i]} :: i < |s.left| && s.left[i] ==> s.uncounted[i] == 0
  }

  lemma StepKeeps(s: State, a: Action)
    requires Invariant(s) && Enabled(s, a)
    ensures Invariant(Step(s, a))
  {
    match a
    case Enqueue(i, q, b) =>
      TotalUpdate(s.queues, q, s.queues[q] + [b]);
      SumUpdate(s.uncounted, i, s.uncounted[i] + 1);
    case Publish(i) => SumUpdate(s.uncounted, i, 0);
    case Take => TakeKeeps(s);
    case Handle => HandleKeeps(s);
    case _ =>
  }

  lemma TakeKeeps(s: State)
    requires Invariant(s) && Enabled(s, Take)
    ensures Invariant(Step(s, Take))
  {
    var c, s' := s.consumer, Step(s, Take);
    TotalUpdate(s.queues, c.at, []);
    forall q: nat | q < |s.sent| ensures s'.log[q] + HandOf(s'.consumer, q) + s'.queues[q] == s'.sent[q] {
      assert s.log[q] + HandOf(c, q) + s.queues[q] == s.sent[q];
      assert HandOf(c, q) == [];
    }
  }

  lemma HandleKeeps(s: State)
    requires Invariant(s) && Enabled(s, Handle)
    ensures Invariant(Step(s, Handle))
  {
    var c, s' := s.consumer, Step(s, Handle);
    forall q: nat | q < |s.sent| ensures s'.log[q] + HandOf(s'.consumer, q) + s'.queues[q] == s'.sent[q] {
      assert s.log[q] + HandOf(c, q) + s.queues[q] == s.sent[q];
      if q == c.at - 1 {
        assert c.hand == [c.hand[0]] + c.hand[1..];
      }
    }
  }

  function Start(queues: nat, tracers: nat): State {
    var none := seq(queues, i => []);
    State(none, seq(tracers, i => 0), seq(tracers, i => false), 0, Deciding, none, none)
  }

  /** The actions happen one after the other, each when it can. */
  predicate Possible(s: State, steps: seq<Action>)
    decreases |steps|
  {
    steps == [] || (Enabled(s, steps[0]) && Possible(Step(s, steps[0]), steps[1..]))
  }

  function Run(s: State, steps: seq<Action>): State
    requires Possible(s, steps)
    decreases |steps|
  {
    if steps == [] then s else Run(Step(s, steps[0]), steps[1..])
  }

  /** In every interleaving of the tracers and the consumer. */
  lemma {:induction false} AlwaysKeeps(s: State, steps: seq<Action>)
    requires Invariant(s) && Possible(s, steps)
    ensures Invariant(Run(s, steps))
    decreases |steps|
  {
    if steps != [] {
      StepKeeps(s, steps[0]);
      AlwaysKeeps(Step(s, steps[0]), steps[1..]);
    }
  }

  lemma {:induction false} NoneUncounted(n: seq<nat>)
    requires forall i :: 0 <= i < |n| ==> n[i] == 0
    ensures Sum(n) == 0
    decreases |n|
  {
    if n != [] {
      NoneUncounted(n[1..]);
    }
  }

  /** All tracers have left, and the consumer is not on its way through the queues. */
  ghost predicate Quiet(s: State) {
    !s.consumer.Sweeping? && forall i: nat :: i < |s.left| ==> s.left[i]
  }

  /** However it came to be, once the tracers have left and the consumer is not under way,
      dp_entries is the number of buffers still queued. */
  lemma AfterTracers(queues: nat, tracers: nat, steps: seq<Action>)
    requires Possible(Start(queues, tracers), steps)
    ensures var s := Run(Start(queues, tracers), steps);
      Invariant(s) && (Quiet(s) ==> s.entries == Total(s.queues))
  {
    var s0 := Start(queues, tracers);
    NoneQueued(s0.queues);
    NoneUncounted(s0.uncounted);
    AlwaysKeeps(s0, steps);
    var s := Run(s0, steps);
    if Quiet(s) {
      forall i | 0 <= i < |s.uncounted| ensures s.uncounted[i] == 0 {
        assert s.left[i];
      }
      NoneUncounted(s.uncounted);
    }
  }

  // ----- clean_trace_bufs -----

  class TraceBufs {
    var entries: int
    const queues: array<seq<Buffer>>
    const log: array<seq<Buffer>>

    ghost predicate Valid()
      reads this, queues
    {
      queues.Length == log.Length && queues != log && entries == Total(queues[..])
    }

    constructor (entries: int, queues: array<seq<Buffer>>, log: array<seq<Buffer>>)
      requires queues.Length == log.Length && queues != log && entries == Total(queues[..])
      ensures Valid() && this.queues == queues && this.log == log
    {
      this.entries, this.queues, this.log := entries, queues, log;
    }

    /** __process_trace_bufs when nobody queues any more. */
    method ProcessTraceBufs()
      requires Valid()
      modifies this, queues, log
      ensures Valid() && entries == 0
      ensures forall q: nat :: q < queues.Length ==> queues[q] == [] && log[q] == old(log[q]) + old(queues[q])
    {
      var handled := 0;
      for q := 0 to queues.Length
        invariant handled + Total(queues[..]) == entries == old(entries)
        invariant forall p: nat {:trigger queues[p]} :: p < queues.Length ==>
          if p < q then queues[p] == [] && log[p] == old(log[p]) + old(queues[p])
          else queues[p] == old(queues[p]) && log[p] == old(log[p])
      {
        if queues[q] != [] {
          ghost var Q := queues[..];
          TotalUpdate(Q, q, []);
          var list := queues[q];
          queues[q] := [];
          assert queues[..] == Q[q := []];
          log[q] := log[q] + list;
          handled := handled + |list|;
        }
      }
      NoneQueued(queues[..]);
      if handled > 0 {
        entries := entries - handled;
      }
    }

    /** clean_trace_bufs ends, with every buffer handled once, in the order of its queue. */
    method CleanTraceBufs()
      requires Valid()
      modifies this, queues, log
      ensures entries == 0
      ensures forall q: nat :: q < queues.Length ==> queues[q] == [] && log[q] == old(log[q]) + old(queues[q])
    {
      ghost var rounds := 0;
      while entries != 0
        invariant Valid()
        invariant rounds > 0 ==> entries == 0
        invariant forall q: nat :: q < queues.Length ==>
          if rounds == 0 then queues[q] == old(queues[q]) && log[q] == old(log[q])
          else queues[q] == [] && log[q] == old(log[q]) + old(queues[q])
        decreases entries != 0
      {
        ProcessTraceBufs();
        rounds := rounds + 1;
      }
      if rounds == 0 {
        EmptyQueues(queues[..]);
        assert forall q: nat :: q < queues.Length ==> queues[..][q] == [] && log[q] + [] == log[q];
      }
    }
  }

  lemma {:induction false} NoneQueued(q: seq<seq<Buffer>>)
    requires forall i :: 0 <= i < |q| ==> q[i] == []
    ensures Total(q) == 0
    decreases |q|
  {
    if q != [] {
      NoneQueued(q[1..]);
    }
  }

  lemma {:induction false} EmptyQueues(q: seq<seq<Buffer>>)
    requires Total(q) == 0
    ensures forall i :: 0 <= i < |q| ==> q[i] == []
    decreases |q|
  {
    if q != [] {
      EmptyQueues(q[1..]);
    }
  }

  // ----- a whole trace -----

  /** What one action puts on queue q. */
  function Sends(a: Action, q: nat): seq<Buffer> {
    if a.Enqueue? && a.queue == q then [a.buffer] else []
  }

  /** The buffers that the steps put on queue q, in order. */
  function Queued(steps: seq<Action>, q: nat): seq<Buffer> {
    if steps == [] then [] else Sends(steps[0], q) + Queued(steps[1..], q)
  }

  lemma {:induction false} SentIsQueued(s: State, steps: seq<Action>, q: nat)
    requires Possible(s, steps) && q < |s.sent|
    ensures |Run(s, steps).sent| == |s.sent| && Run(s, steps).sent[q] == s.sent[q] + Queued(steps, q)
    decreases |steps|
  {
    if steps != [] {
      SentIsQueued(Step(s, steps[0]), steps[1..], q);
    }
  }

  /** The end of wait_tracers after any interleaving: every buffer ever put on a queue has been
      handled exactly once, in the order of its queue. */
  method FinishTracers(entries: int, queues: array<seq<Buffer>>, log: array<seq<Buffer>>, ghost tracers: nat,
                       ghost steps: seq<Action>)
    requires queues.Length == log.Length && queues != log && Possible(Start(queues.Length, tracers), steps)
    requires var s := Run(Start(queues.Length, tracers), steps);
      Quiet(s) && entries == s.entries && queues[..] == s.queues && log[..] == s.log
    modifies queues, log
    ensures forall q: nat :: q < queues.Length ==> queues[q] == [] && log[q] == Queued(steps, q)
  {
    ghost var s := Run(Start(queues.Length, tracers), steps);
    AfterTracers(queues.Length, tracers, steps);
    var bufs := new TraceBufs(entries, queues, log);
    bufs.CleanTraceBufs();
    forall q: nat | q < queues.Length ensures log[q] == Queued(steps, q) {
      AllHandled(queues.Length, tracers, steps, q);
      assert log[q] == s.log[q] + s.queues[q];
    }
  }

  lemma AllHandled(queues: nat, tracers: nat, steps: seq<Action>, q: nat)
    requires Possible(Start(queues, tracers), steps) && q < queues && Quiet(Run(Start(queues, tracers), steps))
    ensures var s := Run(Start(queues, tracers), steps);
      |s.log| == |s.queues| == queues && s.log[q] + s.queues[q] == Queued(steps, q)
  {
    SentIsQueued(Start(queues, tracers), steps, q);
    AfterTracers(queues, tracers, steps);
    NothingInHand(Run(Start(queues, tracers), steps), q);
  }

  lemma NothingInHand(s: State, q: nat)
    requires Invariant(s) && !s.consumer.Sweeping? && q < |s.sent|
    ensures s.log[q] + s.queues[q] == s.sent[q]
  {
    assert s.log[q] + HandOf(s.consumer, q) + s.queues[q] == s.sent[q];
  }
}
