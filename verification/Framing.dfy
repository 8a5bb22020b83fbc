/** handle_list_file: trace data arrives in buffers cut anywhere; what is written out ends with
    a whole record, and the start of the next one is kept for later. */
module Framing {
  import opened Bpf

  /** sizeof(struct blk_io_trace) */
  const HEADER: nat := 48

  type Bytes = seq<Byte>

  /** The length of the records at the front of s that are complete; pduLen reads the length of
      what follows a header off the header. */
  function Whole(s: Bytes, pduLen: Bytes -> nat): (n: nat)
    ensures n <= |s|
    decreases |s|
  {
    if |s| < HEADER then 0
    else
      var t := HEADER + pduLen(s[..HEADER]);
      if t > |s| then 0 else t + Whole(s[t..], pduLen)
  }

  function Records(s: Bytes, pduLen: Bytes -> nat): nat
    decreases |s|
  {
    if |s| < HEADER then 0
    else
      var t := HEADER + pduLen(s[..HEADER]);
      if t > |s| then 0 else 1 + Records(s[t..], pduLen)
  }

  /** What is left holds no complete record. */
  lemma {:induction false} RestIncomplete(s: Bytes, pduLen: Bytes -> nat)
    ensures Whole(s[Whole(s, pduLen)..], pduLen) == 0
    decreases |s|
  {
    if |s| >= HEADER {
      var t := HEADER + pduLen(s[..HEADER]);
      if t <= |s| {
        RestIncomplete(s[t..], pduLen);
        assert s[t..][Whole(s[t..], pduLen)..] == s[Whole(s, pduLen)..];
      } else {
        assert s[0..] == s;
      }
    } else {
      assert s[0..] == s;
    }
  }

  /** More data behind does not change the records in front: cutting off the complete records
      and waiting for more comes to the same as having had all data at once. */
  lemma {:induction false} WholeAppend(a: Bytes, b: Bytes, pduLen: Bytes -> nat)
    ensures var w := Whole(a, pduLen);
      && Whole(a + b, pduLen) == w + Whole(a[w..] + b, pduLen)
      && Records(a + b, pduLen) == Records(a, pduLen) + Records(a[w..] + b, pduLen)
    decreases |a|
  {
    if |a| >= HEADER && HEADER + pduLen(a[..HEADER]) <= |a| {
      var t := HEADER + pduLen(a[..HEADER]);
      var rest := a[t..];
      FirstRecord(a, b, t);
      WholeAppend(rest, b, pduLen);
      DropTwice(a, t, Whole(rest, pduLen));
    } else {
      assert a[0..] == a;
    }
  }

  lemma DropTwice(a: Bytes, t: nat, w: nat)
    requires t + w <= |a|
    ensures a[t..][w..] == a[t + w..]
  {
  }

  lemma FirstRecord(a: Bytes, b: Bytes, t: nat)
    requires HEADER <= t <= |a|
    ensures (a + b)[..HEADER] == a[..HEADER] && (a + b)[t..] == a[t..] + b
  {
  }

  /** One step of the scan through a buffer. */
  lemma WholeStep(s: Bytes, off: nat, pduLen: Bytes -> nat)
    requires off + HEADER <= |s| && off + HEADER + pduLen(s[off..off + HEADER]) <= |s|
    ensures var t := HEADER + pduLen(s[off..off + HEADER]);
      && Whole(s[off..], pduLen) == t + Whole(s[off + t..], pduLen)
      && Records(s[off..], pduLen) == 1 + Records(s[off + t..], pduLen)
  {
    var t := HEADER + pduLen(s[off..off + HEADER]);
    assert s[off..][..HEADER] == s[off..off + HEADER] && s[off..][t..] == s[off + t..];
  }

  function Flatten(list: seq<Bytes>): Bytes {
    if list == [] then [] else list[0] + Flatten(list[1..])
  }

  /** A header and as much behind it as it says. */
  predicate Record(s: Bytes, pduLen: Bytes -> nat) {
    |s| >= HEADER && |s| == HEADER + pduLen(s[..HEADER])
  }

  /** There is no header, or less behind it than it says. */
  predicate Incomplete(s: Bytes, pduLen: Bytes -> nat) {
    |s| < HEADER || |s| < HEADER + pduLen(s[..HEADER])
  }

  /** The complete records are records, one behind the other, and what follows is not another. */
  lemma {:induction false} WholeRecords(s: Bytes, pduLen: Bytes -> nat) returns (records: seq<Bytes>)
    ensures s[..Whole(s, pduLen)] == Flatten(records) && |records| == Records(s, pduLen)
    ensures forall r :: r in records ==> Record(r, pduLen)
    ensures Incomplete(s[Whole(s, pduLen)..], pduLen)
    decreases |s|
  {
    records := [];
    if Incomplete(s, pduLen) {
      assert s[0..] == s;
    } else {
      var t := HEADER + pduLen(s[..HEADER]);
      var rest := WholeRecords(s[t..], pduLen);
      records := [s[..t]] + rest;
      assert s[..t][..HEADER] == s[..HEADER];
      DropTwice(s, t, Whole(s[t..], pduLen));
      assert s[..Whole(s, pduLen)] == s[..t] + s[t..][..Whole(s[t..], pduLen)];
    }
  }

  /** However records are found at the front of s, there are no more of them, and they reach no
      further. */
  lemma {:induction false} LongestFront(s: Bytes, pduLen: Bytes -> nat, records: seq<Bytes>)
    requires Flatten(records) <= s && forall r :: r in records ==> Record(r, pduLen)
    ensures |Flatten(records)| <= Whole(s, pduLen) && |records| <= Records(s, pduLen)
    decreases |records|
  {
    if records != [] {
      var r := records[0];
      assert r in records && r == s[..|r|] && r[..HEADER] == s[..HEADER];
      assert Flatten(records[1..]) == Flatten(records)[|r|..] && Flatten(records[1..]) <= s[|r|..];
      LongestFront(s[|r|..], pduLen, records[1..]);
    }
  }

  /** out is the longest sequence of whole records at the front of input, n of them, and kept is
      the rest. */
  predicate Split(input: Bytes, pduLen: Bytes -> nat, out: Bytes, kept: Bytes, n: nat) {
    input == out + kept && |out| == Whole(input, pduLen) && n == Records(input, pduLen)
  }

  /** More data arrives: the records completed by it go out. */
  lemma Arrive(input: Bytes, pduLen: Bytes -> nat, out: Bytes, kept: Bytes, n: nat, data: Bytes)
    requires Split(input, pduLen, out, kept, n)
    ensures var buf := kept + data;
      var off := Whole(buf, pduLen);
      Split(input + data, pduLen, out + buf[..off], buf[off..], n + Records(buf, pduLen))
  {
    var buf := kept + data;
    var off := Whole(buf, pduLen);
    WholeAppend(input, data, pduLen);
    Rest(input, out, kept);
    Regroup(out, kept, data, off);
  }

  lemma Rest(input: Bytes, out: Bytes, kept: Bytes)
    requires input == out + kept
    ensures input[|out|..] == kept
  {
  }

  lemma Regroup(out: Bytes, kept: Bytes, data: Bytes, off: nat)
    requires off <= |kept + data|
    ensures var buf := kept + data; (out + kept) + data == (out + buf[..off]) + buf[off..]
  {
    var buf := kept + data;
    assert buf == buf[..off] + buf[off..];
    assert (out + kept) + data == out + buf;
    assert out + (buf[..off] + buf[off..]) == (out + buf[..off]) + buf[off..];
  }

  /** struct tracer_devpath_head and the file its device and CPU write to. */
  class PathHead {
    const pduLen: Bytes -> nat
    var prev: Option<Bytes>
    var output: Bytes
    var events: nat
    /** Everything that has arrived. */
    ghost var input: Bytes

    ghost function Kept(): Bytes
      reads this
    {
      if prev.None? then [] else prev.value
    }

    ghost predicate Framed()
      reads this
    {
      Split(input, pduLen, output, Kept(), events)
    }

    constructor (pduLen: Bytes -> nat)
      ensures Framed() && input == [] && this.pduLen == pduLen
    {
      this.pduLen, prev, output, events, input := pduLen, None, [], 0, [];
    }

    /** The loop over the records of a buffer. */
    method Scan(buf: Bytes) returns (off: nat, nevents: nat)
      ensures off == Whole(buf, pduLen) && nevents == Records(buf, pduLen)
    {
      off, nevents := 0, 0;
      assert buf[0..] == buf;
      while off + HEADER <= |buf|
        invariant off <= |buf| && off + Whole(buf[off..], pduLen) == Whole(buf, pduLen)
        invariant nevents + Records(buf[off..], pduLen) == Records(buf, pduLen)
        decreases |buf| - off
      {
        var len := HEADER + pduLen(buf[off..off + HEADER]);
        if off + len > |buf| {
          assert buf[off..][..HEADER] == buf[off..off + HEADER];
          return;
        }
        WholeStep(buf, off, pduLen);
        off, nevents := off + len, nevents + 1;
      }
    }

    /** One buffer of handle_list_file, with the outcome of the write. The framing stays exactly if
        the write succeeds or there is nothing to write; a write that fails loses what was kept as
        well. */
    method HandleBuffer(data: Bytes, fails: bool)
      requires Framed()
      modifies this
      ensures input == old(input) + data
      ensures Framed() <==> !fails || Whole(old(Kept()) + data, pduLen) == 0
      ensures fails && Whole(old(Kept()) + data, pduLen) > 0 ==> prev == None && output == old(output)
    {
      ghost var kept := Kept();
      Arrive(input, pduLen, output, kept, events, data);
      var buf := if prev.Some? then prev.value + data else data;
      assert buf == kept + data;
      var off, nevents := Scan(buf);
      input := input + data;
      events := events + nevents;
      if off > 0 {
        if fails {
          prev := None;
          assert |input| == |output| + |buf|;
          return;
        }
        output := output + buf[..off];
        prev := if off == |buf| then None else Some(buf[off..]);
      } else {
        assert output + buf[..0] == output && buf[0..] == buf;
        prev := Some(buf);
      }
      assert Kept() == buf[off..];
    }

    /** handle_list_file: however the data is cut into buffers, with successful writes the output
        is the whole records of all of it, and what is kept is the start of another. */
    method HandleListFile(list: seq<Bytes>) returns (handled: nat, ghost records: seq<Bytes>)
      requires Framed()
      modifies this
      ensures Framed() && input == old(input) + Flatten(list) && handled == |list|
      ensures output == Flatten(records) && events == |records| && forall r :: r in records ==> Record(r, pduLen)
      ensures Incomplete(Kept(), pduLen)
    {
      handled := 0;
      for i := 0 to |list|
        invariant Framed() && input + Flatten(list[i..]) == old(input) + Flatten(list) && handled == i
      {
        assert list[i..][1..] == list[i + 1..];
        assert input + (list[i] + Flatten(list[i + 1..])) == (input + list[i]) + Flatten(list[i + 1..]);
        HandleBuffer(list[i], false);
        handled := handled + 1;
      }
      assert list[|list|..] == [];
      records := WholeRecords(input, pduLen);
      assert input[..|output|] == output && input[|output|..] == Kept();
    }
  }

  /** What is written is determined: whole records, and no whole record left. */
  lemma SplitUnique(input: Bytes, pduLen: Bytes -> nat, out: Bytes, kept: Bytes, n: nat, out': Bytes, kept': Bytes)
    requires Split(input, pduLen, out, kept, n)
    requires input == out' + kept' && Whole(out', pduLen) == |out'| && Whole(kept', pduLen) == 0
    ensures out' == out && kept' == kept
  {
    WholeAppend(out', kept', pduLen);
    assert out'[|out'|..] + kept' == kept';
    assert out == input[..|out|] && out' == input[..|out'|];
    assert kept == input[|out|..] && kept' == input[|out'|..];
  }
}
