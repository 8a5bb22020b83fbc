/** The hand-over from an old to a new kernel filter on libpcap's memory-mapped ring: the kernel
    fills frames while the program reads them, and for a while the program has to filter what
    the kernel let in before. */
module RingFilter {
  import opened Bpf

  /** The kernel filter a packet has passed; None when the kernel let everything in. */
  type Tag = Option<nat>

  /** Frames in the order in which they will be read, each with the filter its packet passed;
      the kernel's filter; the packets that have passed the filter but are not in the ring yet,
      of which there can be width at a time; the number of the current program; and the two
      variables that say who filters. */
  datatype State = State(size: nat, width: nat, queue: seq<Tag>, kernel: Tag, pending: seq<Tag>, filter: nat,
                         inUserland: bool, blocks: nat)

  /** What the other parties do: the kernel runs its filter on a packet, the kernel puts one of
      the packets that have passed into the ring or drops it, in whatever order, the program
      reads a frame. */
  datatype Event = Accept | Fill(k: nat) | Read

  /** What a step hands to the callback: nothing, a packet the program has filtered, or one it
      has not. */
  datatype Delivery = Nothing | Filtered | Unfiltered(tag: Tag)

  function Do(s: State, e: Event): State {
    match e
    case Accept => if |s.pending| < s.width then s.(pending := s.pending + [s.kernel]) else s
    case Fill(k) =>
      if k >= |s.pending| then s
      else
        var rest := s.pending[..k] + s.pending[k + 1..];
        if |s.queue| < s.size then s.(queue := s.queue + [s.pending[k]], pending := rest)
        else s.(pending := rest)
    case Read =>
      if s.queue == [] then s
      else if s.blocks > 1 then s.(queue := s.queue[1..], blocks := s.blocks - 1)
      else if s.blocks == 1 then s.(queue := s.queue[1..], blocks := 0, inUserland := false)
      else s.(queue := s.queue[1..])
  }

  function Out(s: State, e: Event): Delivery {
    if e != Read || s.queue == [] then Nothing
    else if s.inUserland then Filtered
    else Unfiltered(s.queue[0])
  }

  /** Every packet handed over has passed the current filter, in the kernel or here. */
  predicate Sound(s: State, e: Event) {
    Out(s, e).Unfiltered? ==> Out(s, e).tag == Some(s.filter)
  }

  function DoAll(s: State, es: seq<Event>): State
    decreases |es|
  {
    if es == [] then s else DoAll(Do(s, es[0]), es[1..])
  }

  predicate AllSound(s: State, es: seq<Event>)
    decreases |es|
  {
    es == [] || (Sound(s, es[0]) && AllSound(Do(s, es[0]), es[1..]))
  }

  /** From frame b on the packets have passed the current filter, and so will all to come; an
      older packet still on its way goes in front of that, if nothing can overtake it. */
  ghost predicate Clean(s: State, b: nat) {
    && s.kernel == Some(s.filter)
    && (forall i {:trigger s.queue[i]} :: b <= i < |s.queue| ==> s.queue[i] == Some(s.filter))
    && forall i {:trigger s.pending[i]} :: 0 <= i < |s.pending| && s.pending[i] != Some(s.filter) ==>
      s.width == |s.pending| == 1 && |s.queue| < b
  }

  /** The program filters all packets for good, or at least all those that are not clean. */
  ghost predicate Guarded(s: State) {
    if s.inUserland && s.blocks == 0 then true
      else Clean(s, if s.inUserland then s.blocks else 0) && (!s.inUserland ==> s.blocks == 0)
  }

  lemma GuardedStep(s: State, e: Event)
    requires Guarded(s)
    ensures Sound(s, e) && Guarded(Do(s, e))
  {
    var s' := Do(s, e);
    if e.Fill? && e.k < |s.pending| {
      assert s.pending[e.k] == s.pending[e.k];
      assert forall i :: 0 <= i < |s.queue| ==> s'.queue[i] == s.queue[i];
      assert forall i :: 0 <= i < |s'.pending| ==> s'.pending[i] == s.pending[if i < e.k then i else i + 1];
    } else if e == Read && s.queue != [] {
      assert forall i :: 0 <= i < |s'.queue| ==> s'.queue[i] == s.queue[i + 1];
    }
  }

  /** Under every interleaving of kernel and program. */
  lemma {:induction false} GuardedForever(s: State, es: seq<Event>)
    requires Guarded(s)
    ensures AllSound(s, es) && Guarded(DoAll(s, es))
    decreases |es|
  {
    if es != [] {
      GuardedStep(s, es[0]);
      GuardedForever(Do(s, es[0]), es[1..]);
    }
  }

  // ----- setting a filter -----

  /** The kernel takes the new filter. */
  function Attach(s: State): State {
    s.(filter := s.filter + 1, kernel := Some(s.filter + 1), inUserland := false)
  }

  /** The count of frames the program still has to filter. */
  function Count(s: State, blocks: nat): State {
    s.(blocks := blocks, inUserland := true)
  }

  /** The kernel cannot take the new filter and is told to let everything in; the count of
      frames is left as it was. */
  function Refuse(s: State): State {
    s.(filter := s.filter + 1, kernel := None, inUserland := true)
  }

  /** No read among them: the program is busy. */
  predicate KernelOnly(es: seq<Event>) {
    Read !in es
  }

  /** What the scan of the ring finds, if user frames were in it when the filter was attached:
      all of them and, room permitting, one more. */
  predicate Enough(size: nat, user: nat, blocks: nat) {
    blocks <= size && (user < size ==> user + 1 <= blocks) && (user >= size ==> blocks == size)
  }

  ghost predicate Plausible(s: State) {
    && s.size > 0 && |s.queue| <= s.size && s.width > 0 && |s.pending| <= s.width
    && (forall t :: t in s.queue ==> t.None? || t.value <= s.filter)
    && (forall t :: t in s.pending ==> t.None? || t.value <= s.filter)
  }

  lemma CleanStep(s: State, e: Event, b: nat)
    requires e != Read && Clean(s, b)
    ensures var s' := Do(s, e); Clean(s', b) && s'.filter == s.filter && s'.size == s.size && s.queue <= s'.queue
  {
    var s' := Do(s, e);
    if e.Fill? && e.k < |s.pending| {
      assert s.pending[e.k] == s.pending[e.k];
      assert forall i :: 0 <= i < |s.queue| ==> s'.queue[i] == s.queue[i];
      assert forall i :: 0 <= i < |s'.pending| ==> s'.pending[i] == s.pending[if i < e.k then i else i + 1];
    }
  }

  /** While the ring is scanned the kernel goes on, cleanly behind the frames that were there. */
  lemma {:induction false} CleanMeanwhile(s: State, es: seq<Event>, b: nat)
    requires KernelOnly(es) && Clean(s, b)
    ensures var s' := DoAll(s, es); Clean(s', b) && s'.filter == s.filter && s'.size == s.size && s.queue <= s'.queue
    decreases |es|
  {
    if es != [] {
      assert es[0] in es;
      assert forall e :: e in es[1..] ==> e in es;
      CleanStep(s, es[0], b);
      CleanMeanwhile(Do(s, es[0]), es[1..], b);
    }
  }

  /** No packet is on its way into the ring; or just one, nothing can overtake it, and it will
      find room. */
  predicate NothingBetween(s: State) {
    s.pending == [] || (s.width == 1 && |s.queue| < s.size)
  }

  /** After the hand-over, whatever the kernel does during the scan and everybody later, no
      packet that passed only an older filter gets through unfiltered. */
  lemma HandOverSafe(s: State, during: seq<Event>, blocks: nat, later: seq<Event>)
    requires Plausible(s) && KernelOnly(during) && Enough(s.size, |s.queue|, blocks) && NothingBetween(s)
    ensures AllSound(Count(DoAll(Attach(s), during), blocks), later)
  {
    var b := if |s.queue| < s.size then |s.queue| + 1 else |s.queue|;
    CleanMeanwhile(Attach(s), during, b);
    var s' := Count(DoAll(Attach(s), during), blocks);
    assert Clean(s', blocks);
    GuardedForever(s', later);
  }

  lemma {:induction false} DoAppend(s: State, a: seq<Event>, b: seq<Event>)
    ensures DoAll(s, a + b) == DoAll(DoAll(s, a), b)
    ensures AllSound(s, a + b) <==> AllSound(s, a) && AllSound(DoAll(s, a), b)
    decreases |a|
  {
    if a == [] {
      assert a + b == b;
    } else {
      assert (a + b)[1..] == a[1..] + b;
      DoAppend(Do(s, a[0]), a[1..], b);
    }
  }

  lemma OneEvent(s: State, e: Event, es: seq<Event>)
    ensures DoAll(s, [e] + es) == DoAll(Do(s, e), es)
    ensures AllSound(s, [e] + es) <==> Sound(s, e) && AllSound(Do(s, e), es)
  {
    assert ([e] + es)[1..] == es;
  }

  /** A stale frame beyond the count gets through. */
  lemma {:induction false} StaleBeyond(s: State, j: nat) returns (es: seq<Event>)
    requires j < |s.queue| && s.queue[j] != Some(s.filter)
    requires if s.inUserland then 0 < s.blocks <= j else s.blocks == 0
    ensures !AllSound(s, es)
    decreases j
  {
    if j > 0 {
      es := StaleBeyond(Do(s, Read), j - 1);
      OneEvent(s, Read, es);
      es := [Read] + es;
    } else {
      es := [Read] + [];
      OneEvent(s, Read, []);
    }
  }

  /** A stale packet is overtaken by packets of the new filter until the count has run out. */
  lemma {:induction false} Overtaken(s: State) returns (es: seq<Event>)
    requires s.size > 0 && |s.queue| <= s.size && 0 < |s.pending| < s.width && s.pending[0] != Some(s.filter)
    requires s.inUserland <==> s.blocks > 0
    ensures !AllSound(s, es)
    decreases s.blocks, |s.queue|
  {
    if s.queue != [] {
      es := Overtaken(Do(s, Read));
      OneEvent(s, Read, es);
      es := [Read] + es;
    } else if s.inUserland {
      var s1 := Do(s, Accept);
      var s2 := Do(s1, Fill(|s.pending|));
      assert s2.pending == s.pending && s2.queue == [s.kernel];
      es := Overtaken(Do(s2, Read));
      OneEvent(s2, Read, es);
      OneEvent(s1, Fill(|s.pending|), [Read] + es);
      OneEvent(s, Accept, [Fill(|s.pending|)] + ([Read] + es));
      es := [Accept] + ([Fill(|s.pending|)] + ([Read] + es));
    } else {
      es := StaleBeyond(Do(s, Fill(0)), 0);
      OneEvent(s, Fill(0), es);
      es := [Fill(0)] + es;
    }
  }

  /** In all other cases there is a run that lets an old packet through: it comes into the ring
      after the frames the count covers, overtaken by newer ones, or taking the place of one that
      has been read when the ring was full. */
  lemma OldPacketRace(s: State, blocks: nat) returns (later: seq<Event>)
    requires Plausible(s) && Enough(s.size, |s.queue|, blocks) && !NothingBetween(s)
    ensures !AllSound(Count(Attach(s), blocks), later)
  {
    var s0 := Count(Attach(s), blocks);
    assert s.pending[0] in s.pending && s0.pending[0] != Some(s0.filter);
    if s.width > 1 {
      if |s.pending| < s.width {
        later := Overtaken(s0);
      } else {
        later := Overtaken(Do(s0, Fill(1)));
        OneEvent(s0, Fill(1), later);
        later := [Fill(1)] + later;
      }
    } else {
      var s1 := Do(s0, Read);
      var s2 := Do(s1, Fill(0));
      assert s2.queue == s.queue[1..] + [s.pending[0]];
      later := StaleBeyond(s2, s.size - 1);
      OneEvent(s1, Fill(0), later);
      OneEvent(s0, Read, [Fill(0)] + later);
      later := [Read] + ([Fill(0)] + later);
    }
  }

  /** The hand-over is safe under every later interleaving exactly when no packet is between the
      kernel's filter and the ring, or only one can be and the ring has room for it. */
  lemma HandOverExactly(s: State, blocks: nat)
    requires Plausible(s) && Enough(s.size, |s.queue|, blocks)
    ensures (forall during: seq<Event>, later: seq<Event> :: KernelOnly(during) ==>
               AllSound(Count(DoAll(Attach(s), during), blocks), later))
            <==> NothingBetween(s)
  {
    if NothingBetween(s) {
      forall during: seq<Event>, later: seq<Event> | KernelOnly(during)
        ensures AllSound(Count(DoAll(Attach(s), during), blocks), later)
      {
        HandOverSafe(s, during, blocks, later);
      }
    } else {
      var later := OldPacketRace(s, blocks);
      var during: seq<Event> := [];
      assert DoAll(Attach(s), during) == Attach(s) && KernelOnly(during);
      assert !AllSound(Count(DoAll(Attach(s), during), blocks), later);
    }
  }

  // ----- a filter the kernel refuses -----

  /** Once the program's filter is off, or will be when the count has run out, with none in the
      kernel, a packet that has passed no filter gets through. */
  lemma {:induction false} NothingFilters(s: State) returns (es: seq<Event>)
    requires s.size > 0 && |s.queue| <= s.size && s.width > 0 && |s.pending| <= s.width && s.kernel == None
    requires s.inUserland <==> s.blocks > 0
    ensures !AllSound(s, es)
    decreases s.blocks, |s.queue| + 2 * |s.pending|
  {
    if s.queue != [] {
      es := NothingFilters(Do(s, Read));
      OneEvent(s, Read, es);
      es := [Read] + es;
    } else if s.pending != [] {
      es := NothingFilters(Do(s, Fill(0)));
      OneEvent(s, Fill(0), es);
      es := [Fill(0)] + es;
    } else {
      var s1 := Do(s, Accept);
      var s2 := Do(s1, Fill(0));
      assert s2.queue == [None] && s2.pending == [];
      if s.inUserland {
        es := NothingFilters(Do(s2, Read));
        OneEvent(s2, Read, es);
        es := [Read] + es;
      } else {
        es := StaleBeyond(s2, 0);
      }
      OneEvent(s1, Fill(0), es);
      OneEvent(s, Accept, [Fill(0)] + es);
      es := [Accept] + ([Fill(0)] + es);
    }
  }

  /** A refused filter is applied for good by the program exactly when no count from an earlier
      hand-over is running: otherwise the count goes on, and when it runs out nobody filters. */
  lemma RefusedExactly(s: State)
    requires Plausible(s)
    ensures (forall later: seq<Event> :: AllSound(Refuse(s), later)) <==> s.blocks == 0
  {
    if s.blocks == 0 {
      forall later: seq<Event> ensures AllSound(Refuse(s), later) {
        GuardedForever(Refuse(s), later);
      }
    } else {
      var later := NothingFilters(Refuse(s));
      assert !AllSound(Refuse(s), later);
    }
  }

  // ----- the ring -----

  /** A frame is the program's while its status word is not zero. */
  datatype Frame = Frame(user: bool, tag: Tag)

  function Wrap(i: nat, n: nat): nat
    requires i < 2 * n
  {
    if i < n then i else i - n
  }

  type Ring = seq<Frame>

  /** The frame j places behind the one that is read next. */
  function At(F: Ring, offset: nat, j: nat): Frame
    requires offset < |F| && j < |F|
  {
    F[Wrap(offset + j, |F|)]
  }

  /** The first u frames from offset on are the program's, the others the kernel's. */
  ghost predicate InRing(F: Ring, offset: nat, u: nat) {
    && offset < |F| && u <= |F|
    && forall j: nat {:trigger At(F, offset, j)} :: j < |F| ==> (At(F, offset, j).user <==> j < u)
  }

  ghost function Queue(F: Ring, offset: nat, u: nat): seq<Tag>
    requires offset < |F| && u <= |F|
  {
    seq(u, j requires 0 <= j < u => At(F, offset, j).tag)
  }

  lemma FillRing(F: Ring, offset: nat, u: nat, tag: Tag)
    requires InRing(F, offset, u) && u < |F|
    ensures var head := Wrap(offset + u, |F|);
      var F' := F[head := Frame(true, tag)];
      !F[head].user && InRing(F', offset, u + 1) && Queue(F', offset, u + 1) == Queue(F, offset, u) + [tag]
  {
    var head := Wrap(offset + u, |F|);
    var F' := F[head := Frame(true, tag)];
    assert !At(F, offset, u).user;
    forall j: nat | j < |F| ensures At(F', offset, j) == if j == u then Frame(true, tag) else At(F, offset, j) {
    }
  }

  lemma FullRing(F: Ring, offset: nat)
    requires InRing(F, offset, |F|)
    ensures F[Wrap(offset + |F|, |F|)].user
  {
    assert At(F, offset, 0).user;
  }

  lemma ReadRing(F: Ring, offset: nat, u: nat)
    requires InRing(F, offset, u) && u > 0
    ensures var F', offset' := F[offset := F[offset].(user := false)], if offset + 1 >= |F| then 0 else offset + 1;
      && F[offset].user && Queue(F, offset, u)[0] == F[offset].tag
      && InRing(F', offset', u - 1) && Queue(F', offset', u - 1) == Queue(F, offset, u)[1..]
  {
    var F', offset' := F[offset := F[offset].(user := false)], if offset + 1 >= |F| then 0 else offset + 1;
    assert At(F, offset, 0).user;
    forall j: nat | j < |F|
      ensures At(F', offset', j) == if j + 1 < |F| then At(F, offset, j + 1) else F[offset].(user := false)
    {
    }
  }

  lemma EmptyRing(F: Ring, offset: nat)
    requires InRing(F, offset, 0)
    ensures !F[offset].user
  {
    assert !At(F, offset, 0).user;
  }

  class Capture {
    const frames: array<Frame>
    /** The frame the program reads next and the one the kernel fills next. */
    var offset: nat
    var head: nat
    var kernel: Tag
    /** The packets between the kernel's filter and the ring, and how many there can be. */
    var pending: seq<Tag>
    const width: nat
    var filter: nat
    var inUserland: bool
    var blocks: nat
    /** How many frames are the program's. */
    ghost var u: nat

    ghost predicate Valid()
      reads this, frames
    {
      InRing(frames[..], offset, u) && head == Wrap(offset + u, frames.Length)
    }

    ghost function View(): State
      requires Valid()
      reads this, frames
    {
      State(frames.Length, width, Queue(frames[..], offset, u), kernel, pending, filter, inUserland, blocks)
    }

    constructor (n: nat, width: nat)
      requires n > 0
      ensures Valid() && View() == State(n, width, [], None, [], 0, true, 0) && fresh(frames)
    {
      frames := new Frame[n](_ => Frame(false, None));
      this.width := width;
      offset, head, kernel, pending, filter, inUserland, blocks, u := 0, 0, None, [], 0, true, 0, 0;
    }

    /** The kernel runs its filter on a packet, or puts one that has passed into the ring. */
    method KernelStep(e: Event)
      requires Valid() && e != Read
      modifies this`head, this`pending, this`u, frames
      ensures Valid() && View() == Do(old(View()), e) && u >= old(u)
    {
      if e == Accept {
        if |pending| < width {
          pending := pending + [kernel];
        }
      } else if e.k < |pending| {
        ghost var F, n := frames[..], frames.Length;
        if u == n {
          FullRing(F, offset);
        } else {
          FillRing(F, offset, u, pending[e.k]);
        }
        if !frames[head].user {
          frames[head] := Frame(true, pending[e.k]);
          assert frames[..] == F[head := Frame(true, pending[e.k])];
          head := if head + 1 >= frames.Length then 0 else head + 1;
          u := u + 1;
        }
        pending := pending[..e.k] + pending[e.k + 1..];
      }
    }

    method KernelRun(es: seq<Event>)
      requires Valid() && KernelOnly(es)
      modifies this`head, this`pending, this`u, frames
      ensures Valid() && View() == DoAll(old(View()), es) && u >= old(u)
    {
      for i := 0 to |es|
        invariant Valid() && DoAll(View(), es[i..]) == DoAll(old(View()), es) && u >= old(u)
      {
        assert es[i] in es && es[i..][1..] == es[i + 1..];
        KernelStep(es[i]);
      }
    }

    /** pcap_get_ring_frame: the frame k places behind offset is the program's exactly if it is
        one of those to be read. */
    method RingFrame(pos: nat, user: bool, ghost k: nat) returns (found: bool)
      requires Valid() && k < frames.Length && pos == Wrap(offset + k, frames.Length)
      ensures found <==> (user <==> k < |View().queue|)
    {
      assert At(frames[..], offset, k).user <==> k < u;
      found := frames[pos].user == user;
    }

    /** One round of pcap_read_linux_mmap_v1 and _v2. */
    method ReadFrame() returns (d: Delivery)
      requires Valid()
      modifies this`offset, this`blocks, this`inUserland, this`u, frames
      ensures Valid() && View() == Do(old(View()), Read) && d == Out(old(View()), Read)
    {
      ghost var F := frames[..];
      if u == 0 {
        EmptyRing(F, offset);
      } else {
        ReadRing(F, offset, u);
      }
      var found := RingFrame(offset, true, 0);
      if !found {
        return Nothing;
      }
      d := if inUserland then Filtered else Unfiltered(frames[offset].tag);
      frames[offset] := frames[offset].(user := false);
      assert frames[..] == F[offset := F[offset].(user := false)];
      if blocks > 0 {
        blocks := blocks - 1;
        if blocks == 0 {
          inUserland := false;
        }
      }
      offset := if offset + 1 >= frames.Length then 0 else offset + 1;
      u := u - 1;
    }

    /** The kernel goes on for a while, then the frame k places behind offset is looked at. */
    method Probe(pos: nat, kernelSteps: seq<Event>, ghost k: nat) returns (free: bool)
      requires Valid() && KernelOnly(kernelSteps) && k < frames.Length && pos == Wrap(offset + k, frames.Length)
      modifies this`head, this`pending, this`u, frames
      ensures Valid() && View() == DoAll(old(View()), kernelSteps) && u >= old(u) && (kernelSteps == [] ==> u == old(u))
      ensures free <==> u <= k
    {
      KernelRun(kernelSteps);
      assert kernelSteps == [] ==> |View().queue| == |old(View()).queue|;
      free := RingFrame(pos, false, k);
    }

    /** The scan of pcap_setfilter_linux_mmap: the free frames from the second one before offset
        backwards. Before probe i the kernel gets to do during[i]. */
    method Scan(during: seq<seq<Event>>) returns (n: nat, ghost es: seq<Event>)
      requires Valid() && |during| == frames.Length && forall i :: 0 <= i < |during| ==> KernelOnly(during[i])
      modifies this`head, this`pending, this`u, frames
      ensures Valid() && KernelOnly(es) && View() == DoAll(old(View()), es)
      ensures n <= frames.Length && (n > 0 ==> old(u) == 0 || old(u) + n < frames.Length)
      ensures (forall i :: 0 <= i < |during| ==> during[i] == []) ==>
        && es == []
        && n == if old(u) == 0 then frames.Length
                else if old(u) < frames.Length then frames.Length - 1 - old(u) else 0
    {
      var cc := frames.Length;
      ghost var idle := forall i :: 0 <= i < |during| ==> during[i] == [];
      var pos := if offset == 0 then cc - 1 else offset - 1;
      n, es := 0, [];
      while n < cc
        invariant n <= cc && Valid() && KernelOnly(es) && View() == DoAll(old(View()), es) && u >= old(u)
        invariant pos < cc && (n < cc ==> pos == Wrap(offset + (cc - 1 - n), cc))
        invariant n > 0 ==> old(u) == 0 || old(u) + n < cc
        invariant idle ==> es == [] && u == old(u)
      {
        DoAppend(old(View()), es, during[n]);
        pos := if pos == 0 then cc - 1 else pos - 1;
        var free := Probe(pos, during[n], if n < cc - 1 then cc - 2 - n else cc - 1);
        es := es + during[n];
        if !free {
          return;
        }
        n := n + 1;
      }
    }

    /** pcap_setfilter_linux_common and pcap_setfilter_linux_mmap; accepted says whether the
        kernel took the filter. */
    method SetFilter(accepted: bool, during: seq<seq<Event>>) returns (ghost es: seq<Event>)
      requires Valid() && |during| == frames.Length && forall i :: 0 <= i < |during| ==> KernelOnly(during[i])
      modifies this, frames
      ensures Valid()
      ensures !accepted ==> View() == Refuse(old(View()))
      ensures accepted ==> KernelOnly(es) && View() == Count(DoAll(Attach(old(View())), es), blocks)
      ensures accepted ==> Enough(frames.Length, |old(View()).queue|, blocks)
      ensures accepted && (forall i :: 0 <= i < |during| ==> during[i] == []) ==>
        var user := |old(View()).queue|;
        es == [] && blocks == if user == 0 then 1 else if user + 1 >= frames.Length then frames.Length else user + 2
    {
      filter := filter + 1;
      inUserland := true;
      es := [];
      if accepted {
        kernel := Some(filter);
        inUserland := false;
      } else {
        kernel := None;
      }
      if inUserland {
        return;
      }
      assert View() == Attach(old(View()));
      var n;
      n, es := Scan(during);
      if n != 0 {
        n := n - 1;
      }
      blocks := frames.Length - n;
      inUserland := true;
    }

    /** Setting a filter that the kernel takes, with nothing between its old filter and the ring,
        leaves a ring from which no interleaving lets an old packet through. */
    method SwitchSafely(during: seq<seq<Event>>)
      requires Valid() && Plausible(View()) && |during| == frames.Length
      requires forall i :: 0 <= i < |during| ==> KernelOnly(during[i])
      requires NothingBetween(View())
      modifies this, frames
      ensures Valid() && forall later: seq<Event> :: AllSound(View(), later)
    {
      ghost var s := View();
      ghost var es := SetFilter(true, during);
      forall later: seq<Event> ensures AllSound(View(), later) {
        HandOverSafe(s, es, blocks, later);
      }
    }
  }
}
