/** blkparse's tree of I/O tracks by sector: a map from sectors to tracks. */
module TrackTree {
  import opened Bpf
  import opened RbShape
  import opened RbTree
  import opened RbErase
  import opened RbWalk
  import opened RbIndex

  ghost predicate Rises(s: seq<nat>, sector: seq<nat>, i: nat, j: nat) {
    i < j < |s| ==> s[i] < |sector| && s[j] < |sector| && sector[s[i]] < sector[s[j]]
  }

  /** The sectors of the tracks of s rise. */
  ghost predicate Rising(s: seq<nat>, sector: seq<nat>) {
    && (forall x {:trigger x in s} :: x in s ==> x < |sector|)
    && forall i: nat, j: nat {:trigger Rises(s, sector, i, j)} :: Rises(s, sector, i, j)
  }

  /** m leads from the sector of each track of s to that track, and nowhere else. */
  ghost predicate Maps(m: map<nat, nat>, s: seq<nat>, sector: seq<nat>) {
    && (forall x {:trigger x in s} :: x in s ==> x < |sector| && sector[x] in m && m[sector[x]] == x)
    && forall q {:trigger m[q]} :: q in m ==> m[q] in s && sector[m[q]] == q
  }

  /** The sector q belongs between before and after. */
  ghost predicate Between(before: seq<nat>, after: seq<nat>, sector: seq<nat>, q: nat) {
    && (forall y :: y in before ==> y < |sector| && sector[y] < q)
    && forall y :: y in after ==> y < |sector| && q < sector[y]
  }

  lemma RisingParts(s: seq<nat>, sector: seq<nat>, a: seq<nat>, y: nat, b: seq<nat>)
    requires Rising(s, sector) && s == a + [y] + b
    ensures y < |sector| && Between(a, b, sector, sector[y])
  {
    assert s[|a|] == y && y in s;
    forall z | z in b ensures z < |sector| && sector[y] < sector[z] {
      var i :| 0 <= i < |b| && b[i] == z;
      assert s[|a| + 1 + i] == z && Rises(s, sector, |a|, |a| + 1 + i);
    }
    forall z | z in a ensures z < |sector| && sector[z] < sector[y] {
      var i :| 0 <= i < |a| && a[i] == z;
      assert s[i] == z && Rises(s, sector, i, |a|);
    }
  }

  lemma SplitAt(a: seq<nat>, l: seq<nat>, x: nat, r: seq<nat>, b: seq<nat>)
    ensures a + (l + [x] + r) + b == (a + l) + [x] + (r + b)
    ensures a + l + r + b == (a + l) + (r + b)
    ensures x in a + (l + [x] + r) + b
  {
  }

  /** What a search meets at a node. */
  lemma Meet(C: Heap, root: Ptr, k: Ctx, t: Tree, s: seq<nat>, sector: seq<nat>)
    requires Holds(C, t, Above(k)) && t.Node? && Rising(s, sector) && s == Before(k) + InOrder(t) + After(k)
    ensures t.id in s && t.id < |sector| && t.id < |C| && C[t.id].left == Ref(t.left) && C[t.id].right == Ref(t.right)
    ensures Between(Before(k) + InOrder(t.left), InOrder(t.right) + After(k), sector, sector[t.id])
  {
    RootCell(C, t, Above(k));
    SplitAt(Before(k), InOrder(t.left), t.id, InOrder(t.right), After(k));
    RisingParts(s, sector, Before(k) + InOrder(t.left), t.id, InOrder(t.right) + After(k));
  }

  /** Past a node with another sector. */
  lemma BetweenPast(a: seq<nat>, l: seq<nat>, x: nat, r: seq<nat>, b: seq<nat>, sector: seq<nat>, q: nat)
    requires x < |sector| && Between(a + l, r + b, sector, sector[x]) && Between(a, b, sector, q)
    ensures q < sector[x] ==> Between(a, [x] + r + b, sector, q)
    ensures q > sector[x] ==> Between(a + l + [x], b, sector, q)
  {
    forall y | y in [x] + r + b ensures y == x || y in r + b {
    }
    forall y | y in a + l + [x] ensures y == x || y in a + l {
    }
  }

  /** One step of a search for q from a node with another sector. */
  lemma Narrow(C: Heap, root: Ptr, k: Ctx, t: Tree, side: bool, s: seq<nat>, sector: seq<nat>, q: nat)
    returns (k': Ctx, t': Tree)
    requires Zipped(C, root, k, t) && t.Node? && t.id < |sector|
    requires (if side then q < sector[t.id] else q > sector[t.id])
    requires s == Before(k) + InOrder(t) + After(k) && Between(Before(k), After(k), sector, q)
    requires Between(Before(k) + InOrder(t.left), InOrder(t.right) + After(k), sector, sector[t.id])
    ensures Zipped(C, root, k', t') && Plug(k', t') == Plug(k, t) && t' == (if side then t.left else t.right) && t' < t
    ensures k'.Down? && k'.side == side && k'.id == t.id
    ensures s == Before(k') + InOrder(t') + After(k') && Between(Before(k'), After(k'), sector, q)
  {
    var far := if side then t.right else t.left;
    t', k' := if side then t.left else t.right, Down(side, t.id, t.black, far, k);
    ZipStep(C, root, side, t.id, t.black, far, k, t');
    Regroup(Before(k), InOrder(t.left), [t.id], InOrder(t.right), After(k));
    BetweenPast(Before(k), InOrder(t.left), t.id, InOrder(t.right), After(k), sector, q);
  }

  lemma RisingInsert(a: seq<nat>, b: seq<nat>, sector: seq<nat>, x: nat)
    requires Rising(a + b, sector) && x < |sector| && Between(a, b, sector, sector[x])
    ensures Rising(a + [x] + b, sector)
  {
    var s, s' := a + b, a + [x] + b;
    forall y | y in s' ensures y < |sector| {
      assert y == x || y in s;
    }
    forall i: nat, j: nat ensures Rises(s', sector, i, j) {
      if i < j < |s'| {
        if j < |a| {
          assert s[i] == s'[i] && s[j] == s'[j] && Rises(s, sector, i, j);
        } else if i > |a| {
          assert s[i - 1] == s'[i] && s[j - 1] == s'[j] && Rises(s, sector, i - 1, j - 1);
        } else if i < |a| < j {
          assert s[i] == s'[i] && s[j - 1] == s'[j] && Rises(s, sector, i, j - 1);
        } else if j == |a| {
          assert s'[i] in a;
        } else {
          assert s'[j] in b;
        }
      }
    }
  }

  lemma Mapped(m: map<nat, nat>, s: seq<nat>, sector: seq<nat>, q: nat)
    requires Maps(m, s, sector) && q in m
    ensures m[q] in s && m[q] < |sector| && sector[m[q]] == q
  {
  }

  lemma Unmapped(m: map<nat, nat>, a: seq<nat>, b: seq<nat>, sector: seq<nat>, q: nat)
    requires Maps(m, a + b, sector) && Between(a, b, sector, q)
    ensures q !in m
  {
    if q in m {
      Mapped(m, a + b, sector, q);
      assert false;
    }
  }

  lemma MapsInsert(m: map<nat, nat>, a: seq<nat>, b: seq<nat>, sector: seq<nat>, x: nat)
    requires Maps(m, a + b, sector) && x < |sector| && Between(a, b, sector, sector[x])
    ensures sector[x] !in m && Maps(m[sector[x] := x], a + [x] + b, sector)
  {
    Unmapped(m, a, b, sector, sector[x]);
    forall y | y in a + [x] + b ensures y == x || y in a + b {
    }
  }

  lemma RisingRemove(a: seq<nat>, x: nat, b: seq<nat>, sector: seq<nat>)
    requires Rising(a + [x] + b, sector)
    ensures Rising(a + b, sector) && x !in a + b && x < |sector|
  {
    var s, s' := a + [x] + b, a + b;
    assert s[|a|] == x && x in s;
    forall y | y in s' ensures y < |sector| && y != x {
      var i :| 0 <= i < |s'| && s'[i] == y;
      if i < |a| {
        assert s[i] == y && Rises(s, sector, i, |a|);
      } else {
        assert s[i + 1] == y && y in s && Rises(s, sector, |a|, i + 1);
      }
    }
    forall i: nat, j: nat ensures Rises(s', sector, i, j) {
      if i < j < |s'| {
        var i', j' := if i < |a| then i else i + 1, if j < |a| then j else j + 1;
        assert s'[i] == s[i'] && s'[j] == s[j'] && Rises(s, sector, i', j');
      }
    }
  }

  lemma MapsRemove(m: map<nat, nat>, a: seq<nat>, x: nat, b: seq<nat>, sector: seq<nat>)
    requires Maps(m, a + [x] + b, sector) && Rising(a + [x] + b, sector)
    ensures x < |sector| && Maps(m - {sector[x]}, a + b, sector)
  {
    RisingRemove(a, x, b, sector);
    assert x in a + [x] + b;
    forall y | y in a + b ensures y in a + [x] + b && y != x {
    }
    forall q | q in m - {sector[x]} ensures m[q] in a + b {
      assert m[q] in a + [x] + b && m[q] != x;
    }
  }

  /** Another sector for a track that is not in the tree changes nothing. */
  lemma ResectorApart(m: map<nat, nat>, s: seq<nat>, sector: seq<nat>, x: nat, q: nat)
    requires x !in s && x < |sector| && Rising(s, sector) && Maps(m, s, sector)
    ensures Rising(s, sector[x := q]) && Maps(m, s, sector[x := q])
  {
    var sector' := sector[x := q];
    forall i: nat, j: nat ensures Rises(s, sector', i, j) {
      assert Rises(s, sector, i, j);
      if i < j < |s| {
        assert s[i] in s && s[j] in s;
      }
    }
  }

  // ----- the index as a map -----

  datatype Op = Queue(sector: nat) | Finish(sector: nat) | Merge(start: nat, length: nat)

  /** The track of each sector that has one, tracks being numbered as they are made. */
  datatype Catalogue = Catalogue(tracks: map<nat, nat>, born: nat)

  function Step(x: Catalogue, op: Op): Catalogue {
    match op
    case Queue(q) => if q in x.tracks then x else Catalogue(x.tracks[q := x.born], x.born + 1)
    case Finish(q) => x.(tracks := x.tracks - {q})
    case Merge(start, length) =>
      var q := start + length;
      if q !in x.tracks then x
      else
        var rest := x.tracks - {q};
        x.(tracks := if start in rest then rest else rest[start := x.tracks[q]])
  }

  function StepAll(ops: seq<Op>): Catalogue
    decreases |ops|
  {
    if ops == [] then Catalogue(map[], 0) else Step(StepAll(ops[..|ops| - 1]), ops[|ops| - 1])
  }

  // ----- what the map holds after a run -----

  /** Operation i makes a track for sector q, or moves one there, if q has none then. */
  ghost predicate Gives(ops: seq<Op>, i: nat, q: nat)
    requires i < |ops|
  {
    match ops[i]
    case Queue(r) => r == q
    case Finish(_) => false
    case Merge(start, length) => start == q && start + length in StepAll(ops[..i]).tracks
  }

  /** Which one: the next new track, or that of the sector behind the merged one. */
  ghost function Given(ops: seq<Op>, i: nat, q: nat): nat
    requires i < |ops| && Gives(ops, i, q)
  {
    var before := StepAll(ops[..i]);
    match ops[i]
    case Queue(_) => before.born
    case Merge(start, length) => before.tracks[start + length]
  }

  /** It takes the track of q away. */
  predicate Takes(op: Op, q: nat) {
    match op
    case Queue(_) => false
    case Finish(r) => r == q
    case Merge(start, length) => start + length == q && length > 0
  }

  /** Operation i is the last one that gave q a track, and nothing has taken it away since. */
  ghost predicate HoldsSince(ops: seq<Op>, q: nat, i: nat) {
    && i < |ops| && q !in StepAll(ops[..i]).tracks && Gives(ops, i, q)
    && forall j {:trigger ops[j]} :: i < j < |ops| ==> !Takes(ops[j], q)
  }

  /** The operations that made a track. */
  ghost function Makings(ops: seq<Op>): set<nat> {
    set i: nat | i < |ops| && ops[i].Queue? && ops[i].sector !in StepAll(ops[..i]).tracks
  }

  lemma PrefixOf(ops: seq<Op>, i: nat)
    requires i < |ops|
    ensures ops[..|ops| - 1][..i] == ops[..i]
  {
  }

  lemma SinceBefore(ops: seq<Op>, q: nat, i: nat)
    requires ops != [] && i < |ops| - 1
    ensures HoldsSince(ops, q, i) <==> HoldsSince(ops[..|ops| - 1], q, i) && !Takes(ops[|ops| - 1], q)
    ensures HoldsSince(ops, q, i) ==> Given(ops, i, q) == Given(ops[..|ops| - 1], i, q)
  {
    var before := ops[..|ops| - 1];
    PrefixOf(ops, i);
    assert before[i] == ops[i];
    if HoldsSince(ops, q, i) {
      forall j | i < j < |before| ensures !Takes(before[j], q) {
        assert before[j] == ops[j];
      }
    }
    if HoldsSince(before, q, i) && !Takes(ops[|ops| - 1], q) {
      forall j | i < j < |ops| ensures !Takes(ops[j], q) {
        assert j < |before| ==> before[j] == ops[j];
      }
    }
  }

  /** The operation that gave q its track, if it has one. */
  lemma {:induction false} Giver(ops: seq<Op>, q: nat) returns (i: nat)
    ensures q in StepAll(ops).tracks <==> HoldsSince(ops, q, i)
    ensures forall k: nat :: HoldsSince(ops, q, k) ==>
      k == i && q in StepAll(ops).tracks && StepAll(ops).tracks[q] == Given(ops, k, q)
    decreases |ops|
  {
    i := 0;
    if ops != [] {
      var last: nat := |ops| - 1;
      var before, op := ops[..last], ops[last];
      i := Giver(before, q);
      var was, now := StepAll(before), StepAll(ops);
      assert now == Step(was, op);
      if q !in was.tracks && Gives(ops, last, q) {
        i := last;
      }
      forall k: nat | HoldsSince(ops, q, k)
        ensures k == i && q in now.tracks && now.tracks[q] == Given(ops, k, q)
      {
        if k < last {
          SinceBefore(ops, q, k);
        }
      }
      if i < last {
        SinceBefore(ops, q, i);
      }
    }
  }

  /** A sector has a track exactly if some operation gave it one and nothing has taken it away
      since; it is the track that was given. */
  lemma TrackOf(ops: seq<Op>, q: nat)
    ensures q in StepAll(ops).tracks <==> exists i: nat :: HoldsSince(ops, q, i)
    ensures forall i: nat :: HoldsSince(ops, q, i) ==> StepAll(ops).tracks[q] == Given(ops, i, q)
  {
    var i := Giver(ops, q);
  }

  /** No two sectors share a track, and all tracks have been made. */
  ghost predicate Unshared(x: Catalogue) {
    && (forall q {:trigger x.tracks[q]} :: q in x.tracks ==> x.tracks[q] < x.born)
    && forall q, r {:trigger x.tracks[q], x.tracks[r]} :: q in x.tracks && r in x.tracks && q != r ==>
      x.tracks[q] != x.tracks[r]
  }

  lemma StepUnshared(x: Catalogue, op: Op)
    requires Unshared(x)
    ensures Unshared(Step(x, op))
  {
  }

  lemma MakingsNext(ops: seq<Op>)
    requires ops != []
    ensures var before, op := ops[..|ops| - 1], ops[|ops| - 1];
      Makings(ops) == if op.Queue? && op.sector !in StepAll(before).tracks then Makings(before) + {|ops| - 1}
                      else Makings(before)
  {
    var last := |ops| - 1;
    forall i: nat | i < last ensures i in Makings(ops) <==> i in Makings(ops[..last]) {
      PrefixOf(ops, i);
      assert ops[..last][i] == ops[i];
    }
  }

  /** Tracks are numbered as they are made, and no two sectors share one. */
  lemma {:induction false} TracksApart(ops: seq<Op>)
    ensures StepAll(ops).born == |Makings(ops)| && Unshared(StepAll(ops))
    decreases |ops|
  {
    if ops == [] {
      assert Makings(ops) == {};
    } else {
      var before := ops[..|ops| - 1];
      TracksApart(before);
      StepUnshared(StepAll(before), ops[|ops| - 1]);
      MakingsNext(ops);
    }
  }

  class Tracks {
    const r: RbRoot
    /** The sector of each track, and how many tracks have been allocated. */
    const sector: array<nat>
    var used: nat
    ghost var T: Tree
    /** What the tree stands for. */
    ghost var tracks: map<nat, nat>

    ghost predicate Valid()
      reads this, r, r.cells, sector
    {
      && r.cells.Length == sector.Length && used <= sector.Length
      && Zipped(r.cells[..], r.rbNode, Top, T) && RedBlack(T)
      && Rising(InOrder(T), sector[..]) && Maps(tracks, InOrder(T), sector[..])
      && forall x :: x in Ids(T) ==> x < used
    }

    constructor (n: nat)
      ensures Valid() && tracks == map[] && used == 0 && sector.Length == n && fresh(r) && fresh(r.cells)
      ensures fresh(sector)
    {
      var cells := new Cell[n](_ => Cell(None, None, None, false));
      r := new RbRoot(cells);
      sector := new nat[n];
      used, T, tracks := 0, Leaf, map[];
    }

    ghost function Held(): Catalogue
      reads this
    {
      Catalogue(tracks, used)
    }

    /** __find_track */
    method FindTrack(q: nat) returns (iot: Ptr)
      requires Valid()
      ensures iot == if q in tracks then Some(tracks[q]) else None
      ensures iot.Some? ==> iot.value in Ids(T) && iot.value < used && sector[iot.value] == q
    {
      iot := Search(q);
      if iot.Some? {
        Mapped(tracks, InOrder(T), sector[..], q);
        OrderIds(T);
      }
    }

    method Search(q: nat) returns (iot: Ptr)
      requires Valid()
      ensures iot == if q in tracks then Some(tracks[q]) else None
    {
      var n := r.rbNode;
      ghost var k, t, s := Top, T, InOrder(T);
      assert s == Before(k) + InOrder(t) + After(k);
      while n.Some?
        invariant Zipped(r.cells[..], r.rbNode, k, t) && n == Ref(t)
        invariant s == Before(k) + InOrder(t) + After(k) && Between(Before(k), After(k), sector[..], q)
        decreases t
      {
        Meet(r.cells[..], r.rbNode, k, t, s, sector[..]);
        var here := sector[n.value];
        if q == here {
          return n;
        }
        ghost var k', t' := Narrow(r.cells[..], r.rbNode, k, t, q < here, s, sector[..], q);
        n := if q < here then r.cells[n.value].left else r.cells[n.value].right;
        k, t := k', t';
      }
      assert s == Before(k) + After(k);
      Unmapped(tracks, Before(k), After(k), sector[..], q);
      iot := None;
    }

    /** The loop of track_rb_insert. */
    method FindSpot(q: nat) returns (alias: bool, parent: Ptr, side: bool, ghost k: Ctx)
      requires Valid()
      ensures alias == (q in tracks)
      ensures !alias ==>
        && Zipped(r.cells[..], r.rbNode, k, Leaf) && Plug(k, Leaf) == T && parent == Above(k)
        && (k.Down? ==> side == k.side)
        && InOrder(T) == Before(k) + After(k) && Between(Before(k), After(k), sector[..], q)
    {
      var p := r.rbNode;
      parent, side, k := None, true, Top;
      ghost var t, s := T, InOrder(T);
      assert s == Before(k) + InOrder(t) + After(k);
      while p.Some?
        invariant Zipped(r.cells[..], r.rbNode, k, t) && Plug(k, t) == T && p == Ref(t) && parent == Above(k)
        invariant k.Down? ==> side == k.side
        invariant s == Before(k) + InOrder(t) + After(k) && Between(Before(k), After(k), sector[..], q)
        decreases t
      {
        parent := p;
        Meet(r.cells[..], r.rbNode, k, t, s, sector[..]);
        var here := sector[p.value];
        if q == here {
          alias := true;
          return;
        }
        ghost var k', t' := Narrow(r.cells[..], r.rbNode, k, t, q < here, s, sector[..], q);
        side := q < here;
        p := if side then r.cells[p.value].left else r.cells[p.value].right;
        k, t := k', t';
      }
      alias := false;
      assert s == Before(k) + After(k);
      Unmapped(tracks, Before(k), After(k), sector[..], q);
    }

    /** track_rb_insert for a track that is not in the tree; alias says that another one has its
        sector, and then it stays out. */
    method TrackInsert(iot: nat) returns (alias: bool)
      requires Valid() && iot < used && iot !in Ids(T)
      modifies this`T, this`tracks, r, r.cells
      ensures Valid() && alias == (sector[iot] in old(tracks))
      ensures tracks == if alias then old(tracks) else old(tracks)[sector[iot] := iot]
      ensures alias ==> T == old(T)
    {
      ghost var k;
      var parent, side;
      alias, parent, side, k := FindSpot(sector[iot]);
      if !alias {
        RisingInsert(Before(k), After(k), sector[..], iot);
        MapsInsert(tracks, Before(k), After(k), sector[..], iot);
        ghost var T' := Attach(iot, parent, side, k, T);
        OrderIds(T');
        OrderIds(T);
        T, tracks := T', tracks[sector[iot] := iot];
      }
    }

    /** rb_link_node and rb_insert_color */
    method Attach(iot: nat, parent: Ptr, side: bool, ghost k: Ctx, ghost T0: Tree) returns (ghost T': Tree)
      requires Zipped(r.cells[..], r.rbNode, k, Leaf) && Plug(k, Leaf) == T0 && RedBlack(T0) && iot < r.cells.Length
      requires iot !in Ids(T0)
      requires parent == Above(k) && (k.Down? ==> side == k.side)
      modifies r, r.cells
      ensures Zipped(r.cells[..], r.rbNode, Top, T') && RedBlack(T') && InOrder(T') == Before(k) + [iot] + After(k)
    {
      NotInTree(T0, k, iot);
      LinkNode(r, iot, parent, side, k);
      LinkShape(k, iot);
      T' := r.InsertColor(iot, k, Node(Leaf, iot, false, Leaf));
    }

    /** The removal of a track from the tree. */
    method TrackErase(iot: nat)
      requires Valid() && iot in Ids(T)
      modifies this`T, this`tracks, r, r.cells
      ensures Valid() && iot !in Ids(T) && tracks == old(tracks) - {sector[iot]}
    {
      ghost var T0 := T;
      ghost var k, t := Find(Top, T, iot);
      ZipTop(r.cells[..], r.rbNode, k, t);
      PlugInOrder(k, t);
      ghost var a, b := Before(k) + InOrder(t.left), InOrder(t.right) + After(k);
      SplitAt(Before(k), InOrder(t.left), iot, InOrder(t.right), After(k));
      T := Erase(r, iot, k, t);
      assert InOrder(T) == a + b && InOrder(T0) == a + [iot] + b;
      RisingRemove(a, iot, b, sector[..]);
      MapsRemove(tracks, a, iot, b, sector[..]);
      tracks := tracks - {sector[iot]};
      OrderIds(T);
      OrderIds(T0);
    }

    /** A track that is not in the tree gets a sector. */
    method Resector(iot: nat, q: nat)
      requires Valid() && iot < used && iot !in Ids(T)
      modifies sector
      ensures Valid() && sector[iot] == q
    {
      OrderIds(T);
      ResectorApart(tracks, InOrder(T), sector[..], iot, q);
      ghost var s := sector[..];
      sector[iot] := q;
      assert sector[..] == s[iot := q];
    }

    /** find_track: the track of a sector, a new one if it has none. */
    method Track(q: nat) returns (iot: nat)
      requires Valid() && used < sector.Length
      modifies this, r, r.cells, sector
      ensures Valid() && Held() == Step(old(Held()), Queue(q))
      ensures q in tracks && iot == tracks[q]
      ensures if q in old(tracks) then tracks == old(tracks) && used == old(used)
              else tracks == old(tracks)[q := old(used)] && used == old(used) + 1
    {
      var found := FindTrack(q);
      if found.Some? {
        return found.value;
      }
      iot := used;
      used := used + 1;
      Resector(iot, q);
      var alias := TrackInsert(iot);
    }

    /** log_track_complete: the sector has no track any more, the others keep theirs. */
    method Complete(q: nat) returns (found: bool)
      requires Valid()
      modifies this`T, this`tracks, r, r.cells
      ensures Valid() && found == (q in old(tracks)) && Held() == Step(old(Held()), Finish(q))
      ensures q !in tracks && used == old(used)
      ensures forall x :: x != q ==>
        (x in tracks <==> x in old(tracks)) && (x in tracks ==> tracks[x] == old(tracks)[x])
    {
      var iot := FindTrack(q);
      found := iot.Some?;
      if found {
        TrackErase(iot.value);
      } else {
        assert tracks - {q} == tracks;
      }
    }

    /** log_track_frontmerge: the track of the sector behind the merged one moves to the front
        of it; if that has a track already, it is the other one that stays. */
    method FrontMerge(start: nat, length: nat)
      requires Valid()
      modifies this`T, this`tracks, r, r.cells, sector
      ensures Valid() && Held() == Step(old(Held()), Merge(start, length))
      ensures length > 0 ==> start + length !in tracks
      ensures start in tracks <==> start in old(tracks) || start + length in old(tracks)
      ensures start in old(tracks) ==> tracks[start] == old(tracks)[start]
      ensures start !in old(tracks) && start + length in old(tracks) ==> tracks[start] == old(tracks)[start + length]
      ensures forall x :: x != start && x != start + length ==>
        (x in tracks <==> x in old(tracks)) && (x in tracks ==> tracks[x] == old(tracks)[x])
    {
      var q := start + length;
      var found := FindTrack(q);
      if found.None? {
        return;
      }
      MoveTrack(found.value, start);
    }

    /** A track leaves the tree and comes back with another sector, if that is free. */
    method MoveTrack(iot: nat, start: nat)
      requires Valid() && iot in Ids(T) && iot < used
      modifies this`T, this`tracks, r, r.cells, sector
      ensures Valid()
      ensures var m := old(tracks) - {old(sector[iot])}; tracks == if start in m then m else m[start := iot]
    {
      TrackErase(iot);
      Resector(iot, start);
      var alias := TrackInsert(iot);
    }

    method Apply(op: Op)
      requires Valid() && used < sector.Length
      modifies this, r, r.cells, sector
      ensures Valid() && Held() == Step(old(Held()), op)
    {
      match op {
        case Queue(q) => var iot := Track(q);
        case Finish(q) => var found := Complete(q);
        case Merge(start, length) => FrontMerge(start, length);
      }
    }

    /** After any sequence of operations the tree finds, for every sector, the track it should. */
    method Replay(ops: seq<Op>)
      requires Valid() && tracks == map[] && used == 0 && |ops| <= sector.Length
      modifies this, r, r.cells, sector
      ensures Valid() && Held() == StepAll(ops)
    {
      for i := 0 to |ops|
        invariant Valid() && Held() == StepAll(ops[..i]) && used <= i
      {
        assert ops[..i + 1][..i] == ops[..i];
        Apply(ops[i]);
      }
      assert ops[..|ops|] == ops;
    }
  }
}
