/** blkiomon's matching of issue and completion traces: a hash table of traces waiting for their
    partner, a list of vacant ones, and the trace at work. */
module Monitor {
  import opened Bpf
  import opened LinkedLists

  /** struct blk_io_trace, as far as the matching looks: kind is the action masked by action(). */
  datatype Bit = Bit(device: nat, sector: nat, kind: nat, issue: bool, complete: bool, time: nat)

  datatype Key = Key(device: nat, sector: nat, kind: nat)

  function KeyOf(b: Bit): Key {
    Key(b.device, b.sector, b.kind)
  }

  /** TRACE_HASH_SIZE, and the limit of the list of vacant traces. */
  const TABLE: nat := 128
  const VACANT_MAX: nat := 256

  // ----- lists that share no node -----

  /** Node x is on the list that place says and on no other; list i runs from head i. */
  ghost predicate Shelved(next: seq<Link>, heads: seq<Link>, shelf: seq<seq<nat>>, place: seq<Link>) {
    && |heads| == |shelf| && |place| == |next|
    && (forall i {:trigger shelf[i]} :: 0 <= i < |shelf| ==> Linked(next, heads[i], shelf[i]) && Distinct(shelf[i]))
    && forall i, x: nat {:trigger x in shelf[i]} :: 0 <= i < |shelf| ==>
         (x in shelf[i] <==> x < |place| && place[x] == Some(i))
  }

  lemma ShelfPush(next: seq<Link>, heads: seq<Link>, shelf: seq<seq<nat>>, place: seq<Link>, i: nat, x: nat)
    requires Shelved(next, heads, shelf, place) && i < |shelf| && x < |place| && place[x] == None
    ensures Shelved(next[x := heads[i]], heads[i := Some(x)], shelf[i := [x] + shelf[i]], place[x := Some(i)])
  {
    var next', shelf', place' := next[x := heads[i]], shelf[i := [x] + shelf[i]], place[x := Some(i)];
    assert x !in shelf[i];
    LinkedPush(next, heads[i], shelf[i], x);
    forall j | 0 <= j < |shelf'| ensures Linked(next', heads[i := Some(x)][j], shelf'[j]) && Distinct(shelf'[j]) {
      if j != i {
        assert x !in shelf[j];
        LinkedElsewhere(next, heads[j], shelf[j], next');
      }
    }
    forall j, y: nat | 0 <= j < |shelf'| ensures y in shelf'[j] <==> y < |place'| && place'[y] == Some(j) {
      assert y in shelf[j] <==> y < |place| && place[y] == Some(j);
    }
  }

  /** Taking out node k of list i: its predecessor, or the head, leads past it. */
  lemma ShelfRemove(next: seq<Link>, heads: seq<Link>, shelf: seq<seq<nat>>, place: seq<Link>, i: nat, k: nat)
    requires Shelved(next, heads, shelf, place) && i < |shelf| && k < |shelf[i]|
    ensures var s := shelf[i];
      && s[k] < |next| && (k > 0 ==> s[k - 1] < |next|)
      && Shelved(if k == 0 then next else next[s[k - 1] := next[s[k]]],
                 if k == 0 then heads[i := next[s[0]]] else heads,
                 shelf[i := s[..k] + s[k + 1..]], place[s[k] := None])
  {
    var s := shelf[i];
    var x := s[k];
    assert x in s && (k > 0 ==> s[k - 1] in s);
    var next' := if k == 0 then next else next[s[k - 1] := next[x]];
    var heads' := if k == 0 then heads[i := next[s[0]]] else heads;
    var shelf', place' := shelf[i := s[..k] + s[k + 1..]], place[x := None];
    RemoveFrom(next, heads[i], s, k);
    forall j | 0 <= j < |shelf'| ensures Linked(next', heads'[j], shelf'[j]) && Distinct(shelf'[j]) {
      if j != i {
        forall y | y in shelf[j] && y < |next| ensures next'[y] == next[y] {
          assert k > 0 ==> s[k - 1] !in shelf[j];
        }
        LinkedElsewhere(next, heads[j], shelf[j], next');
      }
    }
    forall j, y: nat | 0 <= j < |shelf'| ensures y in shelf'[j] <==> y < |place'| && place'[y] == Some(j) {
      assert y in shelf[j] <==> y < |place| && place[y] == Some(j);
      InRemoved(s, k, y);
    }
  }

  lemma InRemoved(s: seq<nat>, k: nat, y: nat)
    requires Distinct(s) && k < |s|
    ensures y in s[..k] + s[k + 1..] <==> y in s && y != s[k]
  {
    var s' := s[..k] + s[k + 1..];
    if y in s' {
      var i :| 0 <= i < |s'| && s'[i] == y;
      assert Apart(s, i, k) && Apart(s, k, i + 1);
    }
    assert s == s[..k] + [s[k]] + s[k + 1..];
  }

  lemma RemoveFrom(next: seq<Link>, head: Link, s: seq<nat>, k: nat)
    requires Linked(next, head, s) && Distinct(s) && k < |s|
    ensures s[k] < |next| && (k > 0 ==> s[k - 1] < |next|)
    ensures Distinct(s[..k] + s[k + 1..])
    ensures Linked(if k == 0 then next else next[s[k - 1] := next[s[k]]],
                   if k == 0 then next[s[0]] else head, s[..k] + s[k + 1..])
  {
    var here, before := Then(s, k), Then(s, if k == 0 then 0 else k - 1);
    if k == 0 {
      RestOfList(next, s);
      assert s[..0] + s[1..] == s[1..];
      forall i: nat | i < |s[1..]| ensures s[1..][i] < |next| && next[s[1..][i]] == Then(s[1..], i) {
        var link := Then(s, i + 1);
      }
    } else {
      LinkedRemove(next, head, s, k, next[s[k - 1] := next[s[k]]]);
    }
  }

  // ----- the table -----

  function Bucket(q: Key): nat {
    q.sector % TABLE
  }

  /** table has exactly the traces on the lists below TABLE, each under its key and on the list
      of its sector: there is one at most for every key. */
  ghost predicate Tabled(table: map<Key, nat>, bit: seq<Bit>, place: seq<Link>) {
    && |bit| == |place|
    && (forall x: nat {:trigger place[x]} :: x < |place| && place[x].Some? && place[x].value < TABLE ==>
         KeyOf(bit[x]) in table && table[KeyOf(bit[x])] == x && place[x].value == Bucket(KeyOf(bit[x])))
    && forall q {:trigger table[q]} :: q in table ==>
         table[q] < |place| && place[table[q]] == Some(Bucket(q)) && KeyOf(bit[table[q]]) == q
  }

  lemma TableStore(table: map<Key, nat>, bit: seq<Bit>, place: seq<Link>, x: nat)
    requires Tabled(table, bit, place) && x < |bit| && place[x] == None && KeyOf(bit[x]) !in table
    ensures var q := KeyOf(bit[x]);
      Tabled(table[q := x], bit, place[x := Some(Bucket(q))]) && |table[q := x]| == |table| + 1
  {
    var q := KeyOf(bit[x]);
    var place' := place[x := Some(Bucket(q))];
    forall y: nat | y < |place'| && place'[y].Some? && place'[y].value < TABLE
      ensures var r := KeyOf(bit[y]); r in table[q := x] && table[q := x][r] == y && place'[y].value == Bucket(r)
    {
      if y != x {
        assert place[y] == place'[y];
      }
    }
    assert table[q := x].Keys == table.Keys + {q};
  }

  lemma TableFetch(table: map<Key, nat>, bit: seq<Bit>, place: seq<Link>, x: nat)
    requires Tabled(table, bit, place) && x < |bit| && place[x].Some? && place[x].value < TABLE
    ensures var q := KeyOf(bit[x]);
      q in table && Tabled(table - {q}, bit, place[x := None]) && |table - {q}| == |table| - 1
  {
    var q := KeyOf(bit[x]);
    var place', table' := place[x := None], table - {q};
    forall y: nat | y < |place'| && place'[y].Some? && place'[y].value < TABLE
      ensures KeyOf(bit[y]) in table' && table'[KeyOf(bit[y])] == y && place'[y].value == Bucket(KeyOf(bit[y]))
    {
      assert place[y] == place'[y];
    }
    forall r | r in table'
      ensures table'[r] < |place'| && place'[table'[r]] == Some(Bucket(r)) && KeyOf(bit[table'[r]]) == r
    {
      assert table[r] == table'[r];
    }
    assert table'.Keys == table.Keys - {q};
  }

  /** Nodes outside the table may change their list and their contents. */
  lemma TableElsewhere(table: map<Key, nat>, bit: seq<Bit>, place: seq<Link>, bit': seq<Bit>, place': seq<Link>)
    requires Tabled(table, bit, place) && |bit'| == |bit| && |place'| == |place|
    requires forall x: nat :: x < |place| && (Stored(place, x) || Stored(place', x)) ==>
      place'[x] == place[x] && bit'[x] == bit[x]
    ensures Tabled(table, bit', place')
  {
    forall x: nat | x < |place'| && place'[x].Some? && place'[x].value < TABLE
      ensures KeyOf(bit'[x]) in table && table[KeyOf(bit'[x])] == x && place'[x].value == Bucket(KeyOf(bit'[x]))
    {
      assert Stored(place', x) && place[x] == place'[x];
    }
    forall q | q in table
      ensures table[q] < |place'| && place'[table[q]] == Some(Bucket(q)) && KeyOf(bit'[table[q]]) == q
    {
      assert Stored(place, table[q]);
    }
  }

  predicate Stored(place: seq<Link>, x: nat) {
    x < |place| && place[x].Some? && place[x].value < TABLE
  }

  /** Whether the table has a trace of the same device, sector and action. */
  lemma TableMeans(table: map<Key, nat>, bit: seq<Bit>, place: seq<Link>, b: Bit)
    requires Tabled(table, bit, place)
    ensures KeyOf(b) in table <==> exists x: nat ::
      Stored(place, x) && bit[x].device == b.device && bit[x].sector == b.sector && bit[x].kind == b.kind
    ensures KeyOf(b) in table ==> var x := table[KeyOf(b)];
      Stored(place, x) && bit[x].device == b.device && bit[x].sector == b.sector && bit[x].kind == b.kind
  {
    if KeyOf(b) in table {
      assert Stored(place, table[KeyOf(b)]);
    }
    if x: nat :| Stored(place, x) && bit[x].device == b.device && bit[x].sector == b.sector && bit[x].kind == b.kind {
      assert place[x].Some? && KeyOf(bit[x]) in table;
    }
  }

  lemma PutBack(m: map<Key, nat>, q: Key, x: nat)
    ensures (m - {q})[q := x] == m[q := x]
  {
  }

  // ----- the account of a run -----

  /** The traces that wait for their partner, and the two counters. */
  datatype Account = Account(waiting: map<Key, Bit>, matches: nat, mismatches: nat)

  /** What one more trace does to the account. */
  function Enter(a: Account, b: Bit): Account {
    var q := KeyOf(b);
    if q !in a.waiting then a.(waiting := a.waiting[q := b])
    else
      var s := a.waiting[q];
      var (elder, younger) := if s.time < b.time then (s, b) else (b, s);
      if elder.issue && younger.complete then Account(a.waiting - {q}, a.matches + 1, a.mismatches)
      else Account(a.waiting[q := younger], a.matches, a.mismatches + 1)
  }

  /** In the fields of the traces: one waits for another of its device, sector and action; an issue
      with its later completion is a match and both go, and otherwise the younger one stays. */
  lemma EnterMeans(a: Account, b: Bit)
    ensures var q, a' := Key(b.device, b.sector, b.kind), Enter(a, b);
      && (forall r :: r != q ==>
           (r in a'.waiting <==> r in a.waiting) && (r in a.waiting ==> a'.waiting[r] == a.waiting[r]))
      && (q !in a.waiting ==>
           q in a'.waiting && a'.waiting[q] == b && a'.matches == a.matches && a'.mismatches == a.mismatches)
      && (q in a.waiting ==>
           var s := a.waiting[q];
           if (s.time < b.time && s.issue && b.complete) || (s.time >= b.time && b.issue && s.complete)
           then q !in a'.waiting && a'.matches == a.matches + 1 && a'.mismatches == a.mismatches
           else
             && q in a'.waiting && a'.waiting[q] == (if s.time < b.time then b else s)
             && a'.matches == a.matches && a'.mismatches == a.mismatches + 1)
  {
  }

  function EnterAll(bits: seq<Bit>): Account
    decreases |bits|
  {
    if bits == [] then Account(map[], 0, 0) else Enter(EnterAll(bits[..|bits| - 1]), bits[|bits| - 1])
  }

  /** The traces of one device, sector and action. */
  function OfKey(bits: seq<Bit>, q: Key): seq<Bit>
    decreases |bits|
  {
    if bits == [] then []
    else
      var b := bits[|bits| - 1];
      OfKey(bits[..|bits| - 1], q) +
      if b.device == q.device && b.sector == q.sector && b.kind == q.kind then [b] else []
  }

  /** Traces meet only their own kind: what waits under a key is a trace of that device, sector and
      action, and the same as if there had been no others. */
  lemma {:induction false} KeysApart(bits: seq<Bit>, q: Key)
    ensures var w, w' := EnterAll(bits).waiting, EnterAll(OfKey(bits, q)).waiting;
      && (q in w <==> q in w') && (q in w ==> w[q] == w'[q])
      && (q in w ==> w[q].device == q.device && w[q].sector == q.sector && w[q].kind == q.kind)
    decreases |bits|
  {
    if bits != [] {
      var before, b := bits[..|bits| - 1], bits[|bits| - 1];
      KeysApart(before, q);
      EnterMeans(EnterAll(before), b);
      if b.device == q.device && b.sector == q.sector && b.kind == q.kind {
        var own := OfKey(before, q);
        assert (own + [b])[..|own|] == own;
        EnterMeans(EnterAll(own), b);
      } else {
        assert OfKey(bits, q) == OfKey(before, q);
      }
    }
  }

  lemma TakeSize<T>(m: map<Key, T>, q: Key)
    requires q in m
    ensures |m - {q}| == |m| - 1
  {
    assert (m - {q}).Keys == m.Keys - {q};
  }

  /** Every trace waits, or belongs to a match or a mismatch. */
  lemma {:induction false} AllAccounted(bits: seq<Bit>)
    ensures var a := EnterAll(bits); |bits| == |a.waiting| + 2 * a.matches + a.mismatches
    decreases |bits|
  {
    if bits != [] {
      var before, b := EnterAll(bits[..|bits| - 1]), bits[|bits| - 1];
      AllAccounted(bits[..|bits| - 1]);
      if KeyOf(b) in before.waiting {
        TakeSize(before.waiting, KeyOf(b));
      }
    }
  }

  ghost predicate InBounds(table: map<Key, nat>, n: nat) {
    forall q {:trigger table[q]} :: q in table ==> table[q] < n
  }

  ghost function Waiting(table: map<Key, nat>, bit: seq<Bit>): map<Key, Bit>
    requires InBounds(table, |bit|)
  {
    map q | q in table :: bit[table[q]]
  }

  lemma WaitingStored(table: map<Key, nat>, bit: seq<Bit>, bit': seq<Bit>, table': map<Key, nat>, q: Key, x: nat)
    requires InBounds(table, |bit|) && x < |bit| && table' == table[q := x] && |bit'| == |bit|
    requires forall r :: r in table' ==> table'[r] < |bit| && bit'[table'[r]] == bit[table'[r]]
    ensures InBounds(table', |bit'|) && Waiting(table', bit') == Waiting(table, bit)[q := bit[x]]
  {
    forall r | r in table'
      ensures table'[r] < |bit'| && Waiting(table', bit')[r] == Waiting(table, bit)[q := bit[x]][r]
    {
      assert r != q ==> table'[r] == table[r];
    }
  }

  /** The outcome for trace t and the one stored under its key, as an entry in the account. */
  lemma Paired(m: map<Key, nat>, B: seq<Bit>, t: nat, stored: nat, ok: nat, bad: nat, m': map<Key, nat>, ok': nat,
               bad': nat)
    requires InBounds(m, |B|) && t < |B| && KeyOf(B[t]) in m && m[KeyOf(B[t])] == stored
    requires var (elder, younger) := if B[stored].time < B[t].time then (stored, t) else (t, stored);
      if B[elder].issue && B[younger].complete then m' == m - {KeyOf(B[t])} && ok' == ok + 1 && bad' == bad
      else m' == m[KeyOf(B[t]) := younger] && ok' == ok && bad' == bad + 1
    ensures InBounds(m', |B|) && Account(Waiting(m', B), ok', bad') == Enter(Account(Waiting(m, B), ok, bad), B[t])
  {
    var q := KeyOf(B[t]);
    assert Waiting(m, B)[q] == B[stored];
    WaitingStored(m, B, B, m[q := t], q, t);
    WaitingStored(m, B, B, m[q := stored], q, stored);
  }

  class Blkiomon {
    /** The traces, their links, the chains of the table and the list of vacant traces. */
    const bit: array<Bit>
    const next: array<Link>
    const thash: array<Link>
    var vacant: Link
    var vacantTraces: nat
    /** How many traces malloc has given out. */
    var born: nat
    var matches: nat
    var mismatches: nat
    /** The nodes of each chain and, last, of the list of vacant ones, the list each node is on,
        and the table as a map. */
    ghost var shelf: seq<seq<nat>>
    ghost var place: seq<Link>
    ghost var table: map<Key, nat>

    ghost predicate Shaped()
      reads this
    {
      bit.Length == next.Length && thash.Length == TABLE && |shelf| == TABLE + 1 && next != thash && born <= bit.Length
    }

    ghost predicate Valid()
      reads this, bit, next, thash
    {
      && Shaped() && Shelved(next[..], thash[..] + [vacant], shelf, place) && Tabled(table, bit[..], place)
      && |shelf[TABLE]| == vacantTraces <= VACANT_MAX
      && forall x: nat {:trigger place[x]} :: born <= x < |place| ==> place[x] == None
    }

    /** A trace that is in none of the lists. */
    ghost predicate Loose(t: nat)
      reads this, next
    {
      t < next.Length == |place| && t < born && place[t] == None
    }

    ghost function Book(): Account
      requires Valid()
      reads this, bit, next, thash
    {
      Account(Waiting(table, bit[..]), matches, mismatches)
    }

    constructor (n: nat)
      ensures Valid() && table == map[] && born == 0 && matches == 0 && mismatches == 0
      ensures fresh(bit) && fresh(next) && fresh(thash) && bit.Length == n
    {
      bit := new Bit[n](_ => Bit(0, 0, 0, false, false, 0));
      next := new Link[n](_ => None);
      thash := new Link[TABLE](_ => None);
      vacant, vacantTraces, born, matches, mismatches := None, 0, 0, 0, 0;
      shelf, place, table := seq(TABLE + 1, i => []), seq(n, i => None), map[];
      new;
      forall i, x: nat | 0 <= i < |shelf| ensures x in shelf[i] <==> x < |place| && place[x] == Some(i) {
        assert shelf[i] == [];
      }
    }

    /** blkiomon_store_trace */
    method StoreTrace(t: nat)
      requires Valid() && Loose(t) && KeyOf(bit[t]) !in table
      modifies this`shelf, this`place, this`table, next, thash
      ensures Valid() && table == old(table)[KeyOf(bit[t]) := t] && |table| == |old(table)| + 1
      ensures place == old(place)[t := Some(Bucket(KeyOf(bit[t])))]
    {
      var i := bit[t].sector % TABLE;
      ghost var N, H := next[..], thash[..] + [vacant];
      ShelfPush(N, H, shelf, place, i, t);
      TableStore(table, bit[..], place, t);
      next[t] := thash[i];
      thash[i] := Some(t);
      shelf, place, table := shelf[i := [t] + shelf[i]], place[t := Some(i)], table[KeyOf(bit[t]) := t];
      assert next[..] == N[t := H[i]] && thash[..] + [vacant] == H[i := Some(t)];
    }

    /** blkiomon_fetch_trace: the stored trace with that device, sector and action leaves the
        table. */
    method FetchTrace(b: Bit) returns (found: Link)
      requires Valid()
      modifies this`shelf, this`place, this`table, next, thash
      ensures Valid()
      ensures found.None? ==> KeyOf(b) !in old(table) && table == old(table) && place == old(place)
      ensures found.Some? ==>
        && KeyOf(b) in old(table) && found.value == old(table)[KeyOf(b)]
        && table == old(table) - {KeyOf(b)} && |table| == |old(table)| - 1
        && Loose(found.value) && KeyOf(bit[found.value]) == KeyOf(b) && place == old(place)[found.value := None]
    {
      var i := b.sector % TABLE;
      var prev;
      ghost var k;
      found, prev, k := Search(b, i);
      if found.Some? {
        Unlink(i, k, found.value, prev);
      }
    }

    /** The walk along the chain. */
    method Search(b: Bit, i: nat) returns (found: Link, prev: Link, ghost k: nat)
      requires Valid() && i == b.sector % TABLE
      ensures found.None? ==> KeyOf(b) !in table
      ensures found.Some? ==>
        && k < |shelf[i]| && found.value == shelf[i][k]
        && found.value < bit.Length && KeyOf(bit[found.value]) == KeyOf(b)
        && prev == if k > 0 then Some(shelf[i][k - 1]) else None
    {
      ghost var s := shelf[i];
      found, prev, k := thash[i], None, 0;
      assert (thash[..] + [vacant])[i] == thash[i];
      while found.Some?
        invariant k <= |s| && found == (if k < |s| then Some(s[k]) else None)
        invariant prev == (if k > 0 then Some(s[k - 1]) else None)
        invariant forall j: nat :: j < k ==> s[j] < bit.Length && KeyOf(bit[s[j]]) != KeyOf(b)
        decreases |s| - k
      {
        var t := found.value;
        assert t in s && t in shelf[i];
        if bit[t].device == b.device && bit[t].sector == b.sector && bit[t].kind == b.kind {
          return;
        }
        ghost var link := Then(s, k);
        prev, found := found, next[t];
        k := k + 1;
      }
      NotStored(KeyOf(b));
    }

    method Unlink(i: nat, ghost k: nat, t: nat, prev: Link)
      requires Valid() && i < TABLE && k < |shelf[i]| && shelf[i][k] == t && t < bit.Length
      requires prev == if k > 0 then Some(shelf[i][k - 1]) else None
      modifies this`shelf, this`place, this`table, next, thash
      ensures Valid() && Loose(t) && KeyOf(bit[t]) in old(table) && old(table)[KeyOf(bit[t])] == t
      ensures table == old(table) - {KeyOf(bit[t])} && |table| == |old(table)| - 1 && place == old(place)[t := None]
    {
      ghost var N, H, s := next[..], thash[..] + [vacant], shelf[i];
      OnShelf(k, i);
      ShelfRemove(N, H, shelf, place, i, k);
      TableFetch(table, bit[..], place, t);
      if prev.Some? {
        next[prev.value] := next[t];
        assert next[..] == N[s[k - 1] := N[t]];
      } else {
        thash[i] := next[t];
        assert thash[..] + [vacant] == H[i := N[s[0]]];
      }
      Took(i, k, t);
    }

    lemma OnShelf(k: nat, i: nat)
      requires Valid() && i < TABLE && k < |shelf[i]|
      ensures var s := shelf[i]; s[k] < born && place[s[k]] == Some(i) && (k > 0 ==> s[k - 1] < next.Length)
    {
      var s := shelf[i];
      assert s[k] in shelf[i] && (k > 0 ==> s[k - 1] in shelf[i]);
    }

    /** The ghost state follows an unlinking. */
    ghost method Took(i: nat, k: nat, t: nat)
      requires Shaped() && i < TABLE && k < |shelf[i]| && shelf[i][k] == t && t < |place| == next.Length
      requires Shelved(next[..], thash[..] + [vacant], shelf[i := shelf[i][..k] + shelf[i][k + 1..]], place[t := None])
      requires KeyOf(bit[t]) in table && Tabled(table - {KeyOf(bit[t])}, bit[..], place[t := None])
      requires |shelf[TABLE]| == vacantTraces <= VACANT_MAX
      requires forall x: nat {:trigger place[x]} :: born <= x < |place| ==> place[x] == None
      modifies this`shelf, this`place, this`table
      ensures Valid() && place == old(place)[t := None] && table == old(table) - {KeyOf(bit[t])}
    {
      shelf, place, table := shelf[i := shelf[i][..k] + shelf[i][k + 1..]], place[t := None], table - {KeyOf(bit[t])};
    }

    lemma NotStored(q: Key)
      requires Valid() && forall x :: x in shelf[Bucket(q)] ==> x < bit.Length && KeyOf(bit[x]) != q
      ensures q !in table
    {
      if q in table {
        Bucketed(q);
        assert false;
      }
    }

    lemma Bucketed(q: Key)
      requires Valid() && q in table
      ensures table[q] in shelf[Bucket(q)] && table[q] < bit.Length && KeyOf(bit[table[q]]) == q
    {
      var x := table[q];
      assert x in shelf[Bucket(q)] <==> x < |place| && place[x] == Some(Bucket(q));
    }

    /** blkiomon_free_trace: a loose trace becomes vacant, or goes for good when there are enough
        of those. */
    method FreeTrace(t: nat)
      requires Valid() && Loose(t)
      modifies this`vacant, this`vacantTraces, this`shelf, this`place, next
      ensures Valid() && forall x: nat :: x < |place| && x != t ==> place[x] == old(place)[x]
      ensures |place| == |old(place)|
      ensures place[t] == if old(vacantTraces) < VACANT_MAX then Some(TABLE) else None
    {
      if vacantTraces < VACANT_MAX {
        ghost var N, H, P := next[..], thash[..] + [vacant], place;
        ShelfPush(N, H, shelf, place, TABLE, t);
        next[t] := vacant;
        vacant := Some(t);
        vacantTraces := vacantTraces + 1;
        shelf, place := shelf[TABLE := [t] + shelf[TABLE]], place[t := Some(TABLE)];
        assert next[..] == N[t := H[TABLE]] && thash[..] + [vacant] == H[TABLE := Some(t)];
        TableElsewhere(table, bit[..], P, bit[..], place);
      }
    }

    /** blkiomon_alloc_trace: a vacant trace, or a new one. */
    method AllocTrace() returns (t: nat)
      requires Valid() && born < bit.Length
      modifies this`vacant, this`vacantTraces, this`shelf, this`place, this`born, bit
      ensures Valid() && Loose(t) && born <= old(born) + 1
      ensures forall x: nat :: x < bit.Length && x != t ==> bit[x] == old(bit[x])
      ensures old(place[t]) == None || old(place[t]) == Some(TABLE)
      ensures forall x: nat :: x < |place| && x != t ==> place[x] == old(place)[x]
      ensures old(place[t]).None? ==> t == old(born)
      ensures old(vacantTraces) > 0 ==> old(place)[t] == Some(TABLE)
    {
      ghost var B, P := bit[..], place;
      if vacant.Some? {
        t := vacant.value;
        PopVacant(t);
      } else {
        t := born;
        born := born + 1;
      }
      bit[t] := Bit(0, 0, 0, false, false, 0);
      TableElsewhere(table, B, P, bit[..], place);
    }

    method PopVacant(t: nat)
      requires Valid() && vacant == Some(t)
      modifies this`vacant, this`vacantTraces, this`shelf, this`place
      ensures Valid() && Loose(t) && place == old(place)[t := None] && old(place)[t] == Some(TABLE)
    {
      ghost var N, H, s, P := next[..], thash[..] + [vacant], shelf[TABLE], place;
      assert H[TABLE] == vacant && s[0] == t && t in shelf[TABLE];
      ShelfRemove(N, H, shelf, place, TABLE, 0);
      vacant := next[t];
      vacantTraces := vacantTraces - 1;
      shelf, place := shelf[TABLE := s[..0] + s[1..]], place[t := None];
      assert thash[..] + [vacant] == H[TABLE := N[t]];
      TableElsewhere(table, bit[..], P, bit[..], place);
    }

    /** blkiomon_do_trace: the trace at work meets the one stored under its key, if there is one.
        An issue with its later completion is a match, and both go; otherwise the younger stays.
        Back comes a trace, in no list, for the next call to work on. */
    method DoTrace(t: nat) returns (r: nat)
      requires Valid() && Loose(t) && born < bit.Length
      modifies this, bit, next, thash
      ensures Valid() && Loose(r) && born <= old(born) + 1
      ensures Book() == Enter(old(Book()), old(bit[t]))
      ensures forall x: nat :: x < bit.Length && x != r ==> bit[x] == old(bit[x])
      ensures KeyOf(old(bit[t])) in old(table) && r != t ==> r == old(table)[KeyOf(old(bit[t]))]
    {
      ghost var m, q, B := table, KeyOf(bit[t]), bit[..];
      var found := FetchTrace(bit[t]);
      if found.None? {
        StoreTrace(t);
        r := AllocTrace();
        WaitingStored(m, B, bit[..], table, q, t);
        return;
      }
      PutBack(m, q, t);
      PutBack(m, q, found.value);
      r := Pair(t, found.value, q);
      Paired(m, B, t, found.value, old(matches), old(mismatches), table, matches, mismatches);
    }

    /** The two traces of one key, both out of the table. */
    method Pair(t: nat, stored: nat, ghost q: Key) returns (r: nat)
      requires Valid() && Loose(t) && Loose(stored) && t != stored && q == KeyOf(bit[t]) == KeyOf(bit[stored])
      requires q !in table
      modifies this, next, thash
      ensures Valid() && Loose(r) && born == old(born)
      ensures var (elder, younger) := if bit[stored].time < bit[t].time then (stored, t) else (t, stored);
        if bit[elder].issue && bit[younger].complete
        then table == old(table) && matches == old(matches) + 1 && mismatches == old(mismatches) && r == t
        else
          && table == old(table)[q := younger] && |table| == |old(table)| + 1
          && matches == old(matches) && mismatches == old(mismatches) + 1 && r == elder
    {
      var elder := if bit[stored].time < bit[t].time then stored else t;
      var younger := if bit[stored].time < bit[t].time then t else stored;
      if bit[elder].issue && bit[younger].complete {
        matches := matches + 1;
        FreeTrace(stored);
        r := t;
      } else {
        mismatches := mismatches + 1;
        StoreTrace(younger);
        r := elder;
      }
    }

    /** Any run: the table and the counters hold the account of it, and every call is in there. */
    method Replay(bits: seq<Bit>)
      requires Valid() && born == 0 && table == map[] && matches == 0 && mismatches == 0 && |bits| < bit.Length
      modifies this, bit, next, thash
      ensures Valid() && Book() == EnterAll(bits) && |bits| == |table| + 2 * matches + mismatches
    {
      var t := AllocTrace();
      for i := 0 to |bits|
        invariant Valid() && Loose(t) && born <= i + 1 && Book() == EnterAll(bits[..i])
      {
        ghost var B := bit[..];
        bit[t] := bits[i];
        TableElsewhere(table, B, place, bit[..], place);
        LooseApart(t, B);
        assert bits[..i + 1][..i] == bits[..i];
        t := DoTrace(t);
      }
      assert bits[..|bits|] == bits;
      AllAccounted(bits);
      assert Waiting(table, bit[..]).Keys == table.Keys;
    }

    /** What a loose trace holds is not in the account. */
    lemma LooseApart(t: nat, B: seq<Bit>)
      requires Valid() && Loose(t) && |B| == bit.Length && forall x :: 0 <= x < |B| && x != t ==> B[x] == bit[x]
      ensures InBounds(table, |B|) && Waiting(table, B) == Waiting(table, bit[..])
    {
      forall q | q in table ensures table[q] < |B| && B[table[q]] == bit[table[q]] {
        assert place[table[q]] == Some(Bucket(q));
      }
    }
  }
}
