/** blkparse's merge of the per-CPU trace files: a list of streams, sorted by the time of the
    first trace of each, from whose head the traces are taken. */
module Merge {
  import opened Bpf
  import opened LinkedLists

  datatype Trace = Trace(time: nat, number: nat)

  // ----- the order of the streams -----

  /** The time of the first trace of a stream (ms_peek_time). */
  function PeekTime(queue: seq<seq<Trace>>, id: nat): nat
    requires id < |queue| && queue[id] != []
  {
    queue[id][0].time
  }

  /** Every stream of s has a first trace. */
  ghost predicate Primed(queue: seq<seq<Trace>>, s: seq<nat>) {
    forall id {:trigger id in s} :: id in s ==> id < |queue| && queue[id] != []
  }

  ghost predicate InTime(queue: seq<seq<Trace>>, s: seq<nat>, i: nat, j: nat)
    requires Primed(queue, s)
  {
    i <= j < |s| ==> s[i] in s && s[j] in s && PeekTime(queue, s[i]) <= PeekTime(queue, s[j])
  }

  /** The streams of s are sorted by their first traces. */
  ghost predicate Sorted(queue: seq<seq<Trace>>, s: seq<nat>) {
    Primed(queue, s) && forall i: nat, j: nat {:trigger InTime(queue, s, i, j)} :: InTime(queue, s, i, j)
  }

  /** A stream put in behind those that are not later and before those that are not earlier. */
  lemma SortedInsert(queue: seq<seq<Trace>>, s: seq<nat>, k: nat, x: nat)
    requires Sorted(queue, s) && k <= |s| && x < |queue| && queue[x] != []
    requires forall i: nat :: i < k ==> s[i] in s && PeekTime(queue, s[i]) <= PeekTime(queue, x)
    requires k < |s| ==> s[k] in s && PeekTime(queue, x) <= PeekTime(queue, s[k])
    ensures Sorted(queue, Insert(s, k, x))
  {
    var s' := Insert(s, k, x);
    forall id | id in s' ensures id < |queue| && queue[id] != [] {
      assert id == x || id in s;
    }
    forall i: nat, j: nat ensures InTime(queue, s', i, j) {
      if i <= j < |s'| {
        var i', j' := if i < k then i else i - 1, if j < k then j else j - 1;
        if i != k && j != k {
          assert InTime(queue, s, i', j');
        } else if i == k && j > k {
          assert InTime(queue, s, k, j');
        }
      }
    }
  }

  /** x goes behind the first stream of s unless it is earlier, and from there on behind the streams
      that are earlier than x. */
  ghost predicate Behind(queue: seq<seq<Trace>>, s: seq<nat>, k: nat, x: nat)
    requires Primed(queue, s) && x < |queue| && queue[x] != [] && k <= |s|
  {
    && (forall i: nat :: i < k ==> s[i] in s && PeekTime(queue, s[i]) <= PeekTime(queue, x))
    && (forall i: nat :: 0 < i < k ==> s[i] in s && PeekTime(queue, s[i]) < PeekTime(queue, x))
    && (k < |s| ==> s[k] in s && PeekTime(queue, x) <= PeekTime(queue, s[k]))
    && (k == 0 && s != [] ==> s[0] in s && PeekTime(queue, x) < PeekTime(queue, s[0]))
  }

  lemma SortedRest(queue: seq<seq<Trace>>, s: seq<nat>)
    requires Sorted(queue, s) && |s| > 0
    ensures Sorted(queue, s[1..])
  {
    var rest := s[1..];
    forall id | id in rest ensures id in s {
    }
    forall i: nat, j: nat ensures InTime(queue, rest, i, j) {
      assert InTime(queue, s, i + 1, j + 1);
    }
  }

  // ----- the merge -----

  /** The traces of a stream, in memory and still in its file, never go back in time. */
  ghost predicate Rising(s: seq<Trace>) {
    forall i, j :: 0 <= i < j < |s| ==> s[i].time <= s[j].time
  }

  datatype Handled = Handled(stream: nat, trace: Trace)

  /** The traces of one stream, as they were handled. */
  function Of(log: seq<Handled>, id: nat): seq<Trace>
    decreases |log|
  {
    if log == [] then []
    else
      var last := log[|log| - 1];
      Of(log[..|log| - 1], id) + if last.stream == id then [last.trace] else []
  }

  function Traces(log: seq<Handled>): seq<Trace> {
    if log == [] then [] else Traces(log[..|log| - 1]) + [log[|log| - 1].trace]
  }

  lemma {:induction false} TracesAppend(log: seq<Handled>, h: Handled)
    requires Rising(Traces(log)) && (log != [] ==> log[|log| - 1].trace.time <= h.trace.time)
    ensures Rising(Traces(log + [h]))
    ensures forall id :: Of(log + [h], id) == Of(log, id) + if h.stream == id then [h.trace] else []
  {
    assert (log + [h])[..|log|] == log;
    if log != [] {
      var t := Traces(log);
      assert t[|t| - 1] == log[|log| - 1].trace;
    }
  }

  /** Some trace is later than end. */
  ghost predicate Overdue(input: seq<seq<Trace>>, end: nat) {
    exists id: nat, i: nat :: id < |input| && i < |input[id]| && input[id][i].time > end
  }

  /** The stream starts with these traces, and none of them is later than end. */
  ghost predicate Within(s: seq<Trace>, front: seq<Trace>, end: nat) {
    front <= s && forall i :: 0 <= i < |front| ==> front[i].time <= end
  }

  /** They are all up to the first one later than end. */
  ghost predicate Until(s: seq<Trace>, front: seq<Trace>, end: nat) {
    Within(s, front, end) && (|front| < |s| ==> s[|front|].time > end)
  }

  /** Of a stream that does not go back in time these are exactly the traces that are not later. */
  lemma UntilExactly(s: seq<Trace>, front: seq<Trace>, end: nat)
    requires Rising(s)
    ensures Until(s, front, end) <==>
      |front| <= |s| && front == s[..|front|] && forall i :: 0 <= i < |s| ==> (i < |front| <==> s[i].time <= end)
  {
  }

  /** Where the rest is late, or there is none, that is so. */
  lemma FrontUntil(front: seq<Trace>, queue: seq<Trace>, file: seq<Trace>, s: seq<Trace>, end: nat)
    requires front + queue + file == s && forall i :: 0 <= i < |front| ==> front[i].time <= end
    ensures Within(s, front, end)
    ensures (if queue == [] then file == [] else queue[0].time > end) ==> Until(s, front, end)
    ensures Until(s, front, end) && (forall i :: 0 <= i < |s| ==> s[i].time <= end) ==> front == s
  {
    assert s[..|front|] == front;
    assert queue != [] ==> s[|front|] == queue[0];
  }

  lemma {:induction false} OfWithin(log: seq<Handled>, id: nat, end: nat)
    requires forall i :: 0 <= i < |log| ==> log[i].trace.time <= end
    ensures forall i :: 0 <= i < |Of(log, id)| ==> Of(log, id)[i].time <= end
    decreases |log|
  {
    if log != [] {
      OfWithin(log[..|log| - 1], id, end);
    }
  }

  /** The least time at which a stream starts, and 0 if there is nothing to start with. */
  ghost predicate Earliest(input: seq<seq<Trace>>, time: nat) {
    && (forall id: nat :: id < |input| && input[id] != [] ==> time <= input[id][0].time)
    && if forall id: nat :: id < |input| ==> input[id] == [] then time == 0
       else exists id: nat :: id < |input| && input[id] != [] && input[id][0].time == time
  }

  /** All traces of all streams that never go back are not before that time, and one is at it. */
  lemma EarliestOfAll(input: seq<seq<Trace>>, time: nat, id: nat, i: nat)
    requires Earliest(input, time) && id < |input| && i < |input[id]| && Rising(input[id])
    ensures time <= input[id][i].time
    ensures exists other: nat :: other < |input| && input[other] != [] && input[other][0].time == time
  {
    assert input[id] != [] && input[id][0].time <= input[id][i].time;
  }

  class Merger {
    /** ms_head, and per stream its link, the traces read ahead and the file's other traces. */
    var head: Link
    const next: array<Link>
    const queue: array<seq<Trace>>
    const file: array<seq<Trace>>
    /** rb_batch */
    const batch: nat
    /** The signal that ends the program is noticed at this poll, if at all (is_done). */
    const quitAt: Option<nat>
    var polls: nat
    /** The times of the first trace and of the end of the stopwatch, and what was handled. */
    var genesis: nat
    const stopwatchEnd: nat
    var handled: seq<Handled>
    /** The streams in the list. */
    ghost var order: seq<nat>

    ghost predicate Shaped() {
      next.Length == queue.Length == file.Length && queue != file && batch > 0
    }

    ghost predicate Listed()
      reads this`head, this`order, next
    {
      Linked(next[..], head, order) && Distinct(order)
    }

    constructor (files: array<seq<Trace>>, batch: nat, quitAt: Option<nat>, stopwatchEnd: nat)
      requires batch > 0
      ensures Shaped() && Listed() && order == [] && file == files && this.quitAt == quitAt
      ensures this.stopwatchEnd == stopwatchEnd && genesis == 0 && polls == 0
      ensures handled == [] && fresh(next) && fresh(queue)
      ensures forall id: nat :: id < queue.Length ==> queue[id] == [] && next[id] == None
    {
      this.batch, this.quitAt, this.stopwatchEnd := batch, quitAt, stopwatchEnd;
      polls, order, head, genesis, handled := 0, [], None, 0, [];
      file := files;
      next := new Link[files.Length](_ => None);
      queue := new seq<Trace>[files.Length](_ => []);
    }

    method IsDone() returns (done: bool)
      modifies this`polls
      ensures done == (quitAt.Some? && quitAt.value <= old(polls)) && polls == old(polls) + 1
    {
      done := quitAt.Some? && quitAt.value <= polls;
      polls := polls + 1;
    }

    /** ms_sort: msp goes into the list, which is sorted. */
    method Sort(msp: nat) returns (ghost k: nat)
      requires Shaped() && Listed() && Sorted(queue[..], order) && msp !in order
      requires msp < queue.Length && queue[msp] != [] && next[msp] == None
      modifies this`head, this`order, next
      ensures Listed() && Sorted(queue[..], order) && k <= |old(order)| && order == Insert(old(order), k, msp)
      ensures forall id: nat :: id < next.Length && id != msp && id !in old(order) ==> next[id] == old(next[id])
      ensures Behind(queue[..], old(order), k, msp)
    {
      ghost var s, Q := order, queue[..];
      var time := queue[msp][0].time;
      if head.None? || (assert s[0] in s; time < queue[head.value][0].time) {
        SortFirst(msp);
        k := 0;
      } else {
        assert s[0] in s;
        var this_ := head.value;
        k := 1;
        while next[this_].Some? &&
          (assert Then(s, k - 1).Some?; assert s[k] in s; queue[next[this_].value][0].time < time)
          invariant 0 < k <= |s| && this_ == s[k - 1] && this_ < next.Length && next[this_] == Then(s, k - 1)
          invariant forall i: nat :: i < k ==> s[i] in s && PeekTime(Q, s[i]) <= PeekTime(Q, msp)
          invariant forall i: nat :: 0 < i < k ==> PeekTime(Q, s[i]) < PeekTime(Q, msp)
          decreases |s| - k
        {
          this_ := next[this_].value;
          ghost var link := Then(s, k);
          k := k + 1;
        }
        ghost var N := next[..];
        next[msp] := next[this_];
        next[this_] := Some(msp);
        LinkedInsert(N, head, s, k, msp, next[..]);
        SortedInsert(Q, s, k, msp);
        order := Insert(s, k, msp);
      }
    }

    method SortFirst(msp: nat)
      requires Shaped() && Listed() && Sorted(queue[..], order) && msp !in order
      requires msp < queue.Length && queue[msp] != [] && next[msp] == None
      requires order != [] ==> order[0] in order && PeekTime(queue[..], msp) < PeekTime(queue[..], order[0])
      modifies this`head, this`order, next
      ensures Listed() && Sorted(queue[..], order) && order == Insert(old(order), 0, msp)
      ensures forall id: nat :: id < next.Length && id != msp ==> next[id] == old(next[id])
    {
      ghost var s, N := order, next[..];
      if head.Some? {
        next[msp] := head;
      }
      head := Some(msp);
      order := Insert(s, 0, msp);
      forall i: nat | i < |order| ensures order[i] < next.Length && next[order[i]] == Then(order, i) {
        if i > 0 {
          var link := Then(s, i - 1);
          assert order[i] == s[i - 1] && s[i - 1] in s;
        }
      }
      DistinctInsert(s, 0, msp);
      SortedInsert(queue[..], s, 0, msp);
    }

    /** ms_prime: up to a batch of traces is read ahead. */
    method Prime(msp: nat) returns (ndone: nat)
      requires Shaped() && msp < queue.Length
      modifies this`polls, queue, file
      ensures queue[msp] + file[msp] == old(queue[msp]) + old(file[msp]) && |queue[msp]| == |old(queue[msp])| + ndone
      ensures forall id: nat :: id < queue.Length && id != msp ==>
        queue[id] == old(queue[id]) && file[id] == old(file[id])
      ensures ndone == 0 && quitAt.None? ==> old(file[msp]) == []
      ensures ndone <= batch && (quitAt.None? && ndone < batch ==> ndone == |old(file[msp])|)
    {
      ndone := 0;
      for i := 0 to batch
        invariant ndone == i && queue[msp] + file[msp] == old(queue[msp]) + old(file[msp])
        invariant |queue[msp]| == |old(queue[msp])| + ndone
        invariant forall id: nat :: id < queue.Length && id != msp ==>
          queue[id] == old(queue[id]) && file[id] == old(file[id])
        invariant i == 0 ==> file[msp] == old(file[msp])
        invariant |file[msp]| == |old(file[msp])| - i
      {
        var done := IsDone();
        if done || file[msp] == [] {
          return;
        }
        queue[msp] := queue[msp] + [file[msp][0]];
        file[msp] := file[msp][1..];
        ndone := ndone + 1;
      }
    }

    /** ms_resort: the head of the list, whose first trace may have become later than the
        second stream's, finds its place. */
    method Resort(msp: nat) returns (ghost k: nat)
      requires Shaped() && Listed() && order != [] && order[0] == msp && msp < queue.Length && queue[msp] != []
      requires Sorted(queue[..], order[1..])
      modifies this`head, this`order, next
      ensures Listed() && Sorted(queue[..], order) && k < |old(order)| && order == Insert(old(order)[1..], k, msp)
      ensures var s, Q := old(order), queue[..];
        if |s| > 1 && (assert s[1] in s[1..]; PeekTime(Q, s[1]) < PeekTime(Q, msp)) then Behind(Q, s[1..], k, msp)
        else k == 0
      ensures forall id: nat :: id < next.Length && id !in old(order) ==> next[id] == old(next[id])
    {
      ghost var s := order;
      RestOfList(next[..], s);
      assert s == Insert(s[1..], 0, msp);
      var second := next[msp];
      ghost var link := Then(s, 0);
      if second.Some? {
        assert s[1] in s[1..];
        if queue[msp][0].time > queue[second.value][0].time {
          ghost var N := next[..];
          head := second;
          next[msp] := None;
          order := s[1..];
          assert next[..] == N[msp := None];
          k := Sort(msp);
          return;
        }
      }
      SortedInsert(queue[..], s[1..], 0, msp);
      k := 0;
    }

    /** ms_deq: the first trace of the head of the list is taken out. */
    method Deq(msp: nat)
      requires Shaped() && Listed() && Sorted(queue[..], order) && order != [] && order[0] == msp
      requires msp < queue.Length && queue[msp] != []
      modifies this`head, this`order, this`polls, next, queue, file
      ensures Listed() && Sorted(queue[..], order)
      ensures queue[msp] + file[msp] == old(queue[msp])[1..] + old(file[msp])
      ensures forall id: nat :: id < queue.Length && id != msp ==>
        queue[id] == old(queue[id]) && file[id] == old(file[id])
      ensures forall id :: id in order ==> id in old(order)
      ensures forall id :: id in old(order) && id !in order ==> id == msp
      ensures msp !in order ==> queue[msp] == [] && (quitAt.None? ==> file[msp] == [])
      ensures msp in order ==> queue[msp] != []
    {
      ghost var s, Q := order, queue[..];
      assert s[0] in s;
      SortedRest(Q, s);
      RestOfList(next[..], s);
      queue[msp] := queue[msp][1..];
      SortedElsewhere(Q, queue[..], s[1..], msp);
      if queue[msp] == [] {
        var ndone := Prime(msp);
        SortedElsewhere(Q, queue[..], s[1..], msp);
        if ndone == 0 {
          ghost var N := next[..];
          head := next[msp];
          next[msp] := None;
          order := s[1..];
          assert next[..] == N[msp := None];
          return;
        }
      }
      ghost var k := Resort(msp);
      assert order == s[1..][..k] + [msp] + s[1..][k..];
    }

    /** Between two traces: the list is sorted, streams outside of it have nothing to give, and
        no stream will go back in time. */
    ghost predicate Ready()
      reads this`head, this`order, next, queue, file
    {
      && Shaped() && Listed() && Sorted(queue[..], order)
      && (forall id: nat {:trigger queue[id]} :: id < queue.Length ==> Rising(queue[id] + file[id]))
      && forall id: nat {:trigger queue[id]} :: id < queue.Length && id !in order ==>
           queue[id] == [] && (quitAt.None? ==> file[id] == [])
    }

    /** What was handled, with what is to come, is the input; it was handled in order and in time,
        and what is to come is not earlier. */
    ghost predicate Faithful(input: seq<seq<Trace>>)
      requires Shaped()
      reads this`genesis, this`handled, this`order, queue, file
    {
      && |input| == queue.Length
      && (forall id: nat {:trigger queue[id]} :: id < queue.Length ==>
           Of(handled, id) + queue[id] + file[id] == input[id])
      && Rising(Traces(handled))
      && (forall i :: 0 <= i < |handled| ==> handled[i].trace.time <= genesis + stopwatchEnd)
      && forall id: nat {:trigger queue[id]} :: id < queue.Length && id in order && queue[id] != [] ==>
        genesis <= queue[id][0].time && (handled != [] ==> handled[|handled| - 1].trace.time <= queue[id][0].time)
    }

    /** All that is to come is past the end of the stopwatch. */
    ghost predicate Late()
      reads this`genesis, this`order, queue
    {
      forall id: nat {:trigger queue[id]} :: id < queue.Length && id in order && queue[id] != [] ==>
        queue[id][0].time > genesis + stopwatchEnd
    }

    /** handle: the first trace of the head of the list, unless its time is past the end of the
        stopwatch. */
    method Handle(msp: nat, ghost input: seq<seq<Trace>>) returns (going: bool)
      requires Ready() && Faithful(input) && order != [] && order[0] == msp && msp < queue.Length
      modifies this`head, this`order, this`polls, this`handled, next, queue, file
      ensures Ready() && Faithful(input)
      ensures going ==> |queue[msp]| + |file[msp]| < |old(queue[msp])| + |old(file[msp])|
      ensures going ==> forall id: nat :: id < queue.Length && id != msp ==>
        queue[id] == old(queue[id]) && file[id] == old(file[id])
      ensures !going ==> Late()
    {
      assert msp in order;
      var t := queue[msp][0];
      if t.time - genesis > stopwatchEnd {
        HeadFirst(queue[..], order, msp);
        return false;
      }
      Take(msp, t, input);
      going := true;
    }

    method Take(msp: nat, t: Trace, ghost input: seq<seq<Trace>>)
      requires Ready() && Faithful(input) && order != [] && order[0] == msp && msp < queue.Length && queue[msp] != []
      requires queue[msp][0] == t && t.time <= genesis + stopwatchEnd
      modifies this`head, this`order, this`polls, this`handled, next, queue, file
      ensures Ready() && Faithful(input)
      ensures |queue[msp]| + |file[msp]| < |old(queue[msp])| + |old(file[msp])|
      ensures forall id: nat :: id < queue.Length && id != msp ==>
        queue[id] == old(queue[id]) && file[id] == old(file[id])
    {
      ghost var before, Q, F := handled, queue[..], file[..];
      assert msp in order;
      HeadFirst(Q, order, msp);
      TracesAppend(handled, Handled(msp, t));
      RisingHead(Q[msp], F[msp]);
      handled := handled + [Handled(msp, t)];
      Deq(msp);
      StillInput(before, Q, F, input, msp, t, queue[..], file[..]);
      assert |queue[msp] + file[msp]| == |Q[msp][1..] + F[msp]|;
      forall id: nat | id < queue.Length ensures Rising(queue[id] + file[id]) {
        assert id != msp ==> queue[id] == Q[id] && file[id] == F[id];
      }
      forall id: nat | id < queue.Length && id in order && queue[id] != []
        ensures genesis <= queue[id][0].time && t.time <= queue[id][0].time
      {
        if id == msp {
          assert queue[id][0] in queue[id] + file[id];
        } else {
          assert Q[id] == queue[id];
        }
      }
    }

    /** setup_file for one stream: it joins the list if it has anything. */
    method Add(id: nat, ghost input: seq<seq<Trace>>)
      requires Shaped() && Listed() && Sorted(queue[..], order) && id < queue.Length && id !in order
      requires queue[id] == [] && next[id] == None
      modifies this`head, this`order, this`polls, next, queue, file
      ensures Listed() && Sorted(queue[..], order)
      ensures queue[id] + file[id] == old(file[id])
      ensures forall x: nat :: x < queue.Length && x != id ==> queue[x] == old(queue[x]) && file[x] == old(file[x])
      ensures forall x: nat :: x < queue.Length && x != id && x !in old(order) ==> next[x] == old(next[x])
      ensures forall x :: x in order <==> x in old(order) || (x == id && queue[id] != [])
      ensures queue[id] == [] && quitAt.None? ==> file[id] == []
    {
      ghost var s, Q := order, queue[..];
      var ndone := Prime(id);
      SortedElsewhere(Q, queue[..], s, id);
      if ndone > 0 {
        ghost var k := Sort(id);
        assert order == s[..k] + [id] + s[k..] && s == s[..k] + s[k..];
      }
    }

    method Setup(ghost input: seq<seq<Trace>>)
      requires Shaped() && Listed() && order == [] && handled == [] && input == file[..]
      requires forall id: nat :: id < queue.Length ==> queue[id] == [] && next[id] == None && Rising(file[id])
      modifies this`head, this`order, this`polls, next, queue, file
      ensures Ready() && forall id: nat :: id < queue.Length ==> queue[id] + file[id] == input[id]
    {
      for cpu := 0 to queue.Length
        invariant Listed() && Sorted(queue[..], order)
        invariant forall id: nat {:trigger queue[id]} :: id < queue.Length ==> queue[id] + file[id] == input[id]
        invariant forall id: nat {:trigger next[id]} :: cpu <= id < queue.Length ==>
          queue[id] == [] && next[id] == None && id !in order
        invariant forall id: nat {:trigger queue[id]} :: id < cpu && id !in order ==>
          queue[id] == [] && (quitAt.None? ==> file[id] == [])
      {
        assert next[cpu] == next[cpu] && [] + file[cpu] == file[cpu];
        Add(cpu, input);
      }
    }

    /** do_file: all streams are set up, then their traces are handled one after the other, in the
        order of time. Those handled are, from each stream, its first ones, none of them past the
        end of the stopwatch; if no signal ends the program, they are all up to there, counted
        from the very first trace. */
    method DoFile(ghost input: seq<seq<Trace>>)
      requires Shaped() && Listed() && order == [] && handled == [] && genesis == 0 && input == file[..]
      requires forall id: nat :: id < queue.Length ==> queue[id] == [] && next[id] == None && Rising(file[id])
      modifies this, next, queue, file
      ensures Rising(Traces(handled))
      ensures forall id: nat :: id < |input| ==> Within(input[id], Of(handled, id), genesis + stopwatchEnd)
      ensures quitAt.None? ==> Earliest(input, genesis)
      ensures quitAt.None? ==>
        forall id: nat :: id < |input| ==> Until(input[id], Of(handled, id), genesis + stopwatchEnd)
      ensures quitAt.None? && !Overdue(input, genesis + stopwatchEnd) ==>
        forall id: nat :: id < |input| ==> Of(handled, id) == input[id]
    {
      Setup(input);
      Begin(input);
      HandleAll(input);
      Finish(input);
    }

    /** The loop of do_file. */
    method HandleAll(ghost input: seq<seq<Trace>>)
      requires Ready() && Faithful(input)
      modifies this`head, this`order, this`polls, this`handled, next, queue, file
      ensures Ready() && Faithful(input) && (head.None? || Late() || quitAt.Some?)
    {
      var going := true;
      var done := Poll(input);
      while !done && head.Some? && going
        invariant Ready() && Faithful(input) && (!going ==> Late())
        invariant done ==> quitAt.Some?
        decreases going, Left(queue[..], file[..])
      {
        going := Round(input);
        done := Poll(input);
      }
    }

    method Poll(ghost input: seq<seq<Trace>>) returns (done: bool)
      requires Ready() && Faithful(input)
      modifies this`polls
      ensures Ready() && Faithful(input) && (done ==> quitAt.Some?) && Late() == old(Late())
    {
      done := IsDone();
    }

    method Round(ghost input: seq<seq<Trace>>) returns (going: bool)
      requires Ready() && Faithful(input) && head.Some?
      modifies this`head, this`order, this`polls, this`handled, next, queue, file
      ensures Ready() && Faithful(input) && (!going ==> Late())
      ensures going ==> Left(queue[..], file[..]) < Left(old(queue[..]), old(file[..]))
    {
      ghost var Q, F, msp := queue[..], file[..], head.value;
      assert order[0] in order;
      going := Handle(head.value, input);
      if going {
        assert |queue[..][msp]| + |file[..][msp]| < |Q[msp]| + |F[msp]|;
        LeftShrinks(Q, F, queue[..], file[..], msp);
      }
    }

    lemma Finish(input: seq<seq<Trace>>)
      requires Ready() && Faithful(input)
      ensures forall id: nat :: id < |input| ==> Within(input[id], Of(handled, id), genesis + stopwatchEnd)
      ensures (head.None? || Late()) && quitAt.None? ==>
        forall id: nat :: id < |input| ==> Until(input[id], Of(handled, id), genesis + stopwatchEnd)
      ensures (head.None? || Late()) && quitAt.None? && !Overdue(input, genesis + stopwatchEnd) ==>
        forall id: nat :: id < |input| ==> Of(handled, id) == input[id]
    {
      forall id: nat | id < |input|
        ensures Within(input[id], Of(handled, id), genesis + stopwatchEnd)
        ensures (head.None? || Late()) && quitAt.None? ==>
          Until(input[id], Of(handled, id), genesis + stopwatchEnd)
        ensures Until(input[id], Of(handled, id), genesis + stopwatchEnd) && !Overdue(input, genesis + stopwatchEnd) ==>
          Of(handled, id) == input[id]
      {
        OfWithin(handled, id, genesis + stopwatchEnd);
        FrontUntil(Of(handled, id), queue[id], file[id], input[id], genesis + stopwatchEnd);
        assert head.None? ==> order == [];
      }
    }

    /** The time of the very first trace. */
    method Begin(ghost input: seq<seq<Trace>>)
      requires Ready() && handled == [] && genesis == 0 && |input| == queue.Length
      requires forall id: nat :: id < queue.Length ==> queue[id] + file[id] == input[id]
      modifies this`genesis
      ensures Ready() && Faithful(input) && (quitAt.None? ==> Earliest(input, genesis))
    {
      if head.Some? {
        assert order[0] in order;
        HeadFirst(queue[..], order, order[0]);
        genesis := queue[head.value][0].time;
      }
      forall id: nat | id < queue.Length ensures Of(handled, id) + queue[id] + file[id] == input[id] {
        assert [] + queue[id] == queue[id];
      }
    }
  }

  function Left(Q: seq<seq<Trace>>, F: seq<seq<Trace>>): nat
    requires |Q| == |F|
  {
    if Q == [] then 0 else |Q[0]| + |F[0]| + Left(Q[1..], F[1..])
  }

  lemma {:induction false} LeftShrinks(Q: seq<seq<Trace>>, F: seq<seq<Trace>>, Q': seq<seq<Trace>>, F': seq<seq<Trace>>,
                                       x: nat)
    requires |Q| == |F| == |Q'| == |F'| && x < |Q| && |Q'[x]| + |F'[x]| < |Q[x]| + |F[x]|
    requires forall id: nat :: id < |Q| && id != x ==> Q'[id] == Q[id] && F'[id] == F[id]
    ensures Left(Q', F') < Left(Q, F)
    decreases |Q|
  {
    if x > 0 {
      LeftShrinks(Q[1..], F[1..], Q'[1..], F'[1..], x - 1);
    } else {
      assert Q'[1..] == Q[1..] && F'[1..] == F[1..];
    }
  }

  lemma HeadFirst(queue: seq<seq<Trace>>, s: seq<nat>, x: nat)
    requires Sorted(queue, s) && s != [] && s[0] == x
    ensures forall id :: id in s ==> x < |queue| && queue[x] != [] && PeekTime(queue, x) <= PeekTime(queue, id)
  {
    assert s[0] in s;
    forall id | id in s ensures PeekTime(queue, x) <= PeekTime(queue, id) {
      var j :| 0 <= j < |s| && s[j] == id;
      assert InTime(queue, s, 0, j);
    }
  }

  lemma Shift(o: seq<Trace>, t: Trace, q: seq<Trace>, f: seq<Trace>, q': seq<Trace>, f': seq<Trace>)
    requires q != [] && q[0] == t && q' + f' == q[1..] + f
    ensures (o + [t]) + q' + f' == o + q + f
  {
    assert q == [t] + q[1..];
    assert (o + [t]) + q' + f' == (o + [t]) + (q' + f');
    assert o + q + f == o + [t] + (q[1..] + f);
  }

  lemma StillInput(log: seq<Handled>, Q: seq<seq<Trace>>, F: seq<seq<Trace>>, input: seq<seq<Trace>>, x: nat, t: Trace,
                   Q': seq<seq<Trace>>, F': seq<seq<Trace>>)
    requires |Q| == |F| == |Q'| == |F'| == |input| && x < |Q| && Q[x] != [] && Q[x][0] == t
    requires Q'[x] + F'[x] == Q[x][1..] + F[x]
    requires forall id: nat :: id < |Q| && id != x ==> Q'[id] == Q[id] && F'[id] == F[id]
    requires forall id: nat :: id < |Q| ==> Of(log, id) + Q[id] + F[id] == input[id]
    ensures forall id: nat :: id < |Q| ==> Of(log + [Handled(x, t)], id) + Q'[id] + F'[id] == input[id]
  {
    assert (log + [Handled(x, t)])[..|log|] == log;
    forall id: nat | id < |Q| ensures Of(log + [Handled(x, t)], id) + Q'[id] + F'[id] == input[id] {
      if id == x {
        Shift(Of(log, id), t, Q[id], F[id], Q'[id], F'[id]);
      } else {
        assert Of(log, id) + [] == Of(log, id);
      }
    }
  }

  lemma RisingHead(q: seq<Trace>, f: seq<Trace>)
    requires Rising(q + f) && q != []
    ensures Rising(q[1..] + f) && q[1..] + f == (q + f)[1..]
    ensures forall t :: t in q[1..] + f ==> q[0].time <= t.time
  {
    var s := q + f;
    assert q[1..] + f == s[1..];
    forall t | t in s[1..] ensures q[0].time <= t.time {
      var i :| 0 < i < |s| && s[i] == t;
      assert s[0] == q[0];
    }
  }

  lemma SortedElsewhere(Q: seq<seq<Trace>>, Q': seq<seq<Trace>>, s: seq<nat>, x: nat)
    requires Sorted(Q, s) && |Q'| == |Q| && x !in s && forall id: nat :: id < |Q| && id != x ==> Q'[id] == Q[id]
    ensures Sorted(Q', s)
  {
    forall i: nat, j: nat ensures Primed(Q', s) && InTime(Q', s, i, j) {
      assert InTime(Q, s, i, j);
    }
  }
}
