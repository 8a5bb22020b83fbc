/** Singly linked lists of nodes that are named by numbers. */
module LinkedLists {
  import opened Bpf

  type Link = Option<nat>

  function Then(s: seq<nat>, i: nat): Link {
    if i + 1 < |s| then Some(s[i + 1]) else None
  }

  /** The list from head runs through the nodes of s. */
  ghost predicate Linked(next: seq<Link>, head: Link, s: seq<nat>) {
    && head == (if s == [] then None else Some(s[0]))
    && forall i: nat {:trigger Then(s, i)} :: i < |s| ==> s[i] < |next| && next[s[i]] == Then(s, i)
  }

  ghost predicate Apart(s: seq<nat>, i: nat, j: nat) {
    i < j < |s| ==> s[i] != s[j]
  }

  ghost predicate Distinct(s: seq<nat>) {
    forall i: nat, j: nat {:trigger Apart(s, i, j)} :: Apart(s, i, j)
  }

  function Insert(s: seq<nat>, k: nat, x: nat): seq<nat>
    requires k <= |s|
  {
    s[..k] + [x] + s[k..]
  }

  lemma LinkedInsert(next: seq<Link>, head: Link, s: seq<nat>, k: nat, x: nat, next': seq<Link>)
    requires Linked(next, head, s) && Distinct(s) && 0 < k <= |s| && x < |next| && x !in s
    requires s[k - 1] < |next| && next' == next[x := next[s[k - 1]]][s[k - 1] := Some(x)]
    ensures Linked(next', head, Insert(s, k, x)) && Distinct(Insert(s, k, x))
  {
    var s' := Insert(s, k, x);
    forall i: nat | i < |s'| ensures s'[i] < |next'| && next'[s'[i]] == Then(s', i) {
      if i != k {
        var i' := if i < k then i else i - 1;
        var link := Then(s, i');
        assert s'[i] == s[i'] && s[i'] in s;
        assert i' < k - 1 ==> Apart(s, i', k - 1);
        assert i' > k - 1 ==> Apart(s, k - 1, i');
      } else {
        var link := Then(s, k - 1);
        assert s[k - 1] in s;
      }
    }
    DistinctInsert(s, k, x);
  }

  lemma DistinctInsert(s: seq<nat>, k: nat, x: nat)
    requires Distinct(s) && k <= |s| && x !in s
    ensures Distinct(Insert(s, k, x))
  {
    var s' := Insert(s, k, x);
    forall i: nat, j: nat ensures Apart(s', i, j) {
      if i < j < |s'| {
        var i', j' := if i < k then i else i - 1, if j < k then j else j - 1;
        if i != k && j != k {
          assert Apart(s, i', j');
        }
      }
    }
  }

  /** The list without its head. */
  lemma RestOfList(next: seq<Link>, s: seq<nat>)
    requires |s| > 0 && Linked(next, Some(s[0]), s) && Distinct(s)
    ensures s[0] < |next| && Linked(next[s[0] := None], next[s[0]], s[1..]) && Distinct(s[1..]) && s[0] !in s[1..]
  {
    var link := Then(s, 0);
    forall j: nat | j < |s[1..]| ensures s[0] != s[1..][j] {
      assert Apart(s, 0, j + 1);
    }
    forall i: nat | i < |s[1..]| ensures s[1..][i] < |next| && next[s[0] := None][s[1..][i]] == Then(s[1..], i) {
      var link' := Then(s, i + 1);
    }
    var rest := s[1..];
    forall i: nat, j: nat ensures Apart(rest, i, j) {
      assert Apart(s, i + 1, j + 1);
    }
  }

  lemma DistinctRemove(s: seq<nat>, k: nat)
    requires Distinct(s) && k < |s|
    ensures Distinct(s[..k] + s[k + 1..])
  {
    var s' := s[..k] + s[k + 1..];
    forall i: nat, j: nat ensures Apart(s', i, j) {
      if i < j < |s'| {
        assert Apart(s, if i < k then i else i + 1, if j < k then j else j + 1);
      }
    }
  }

  /** A node in the middle is bypassed. */
  lemma LinkedRemove(next: seq<Link>, head: Link, s: seq<nat>, k: nat, next': seq<Link>)
    requires Linked(next, head, s) && Distinct(s) && 0 < k < |s| && s[k - 1] < |next| && s[k] < |next|
    requires next' == next[s[k - 1] := next[s[k]]]
    ensures Linked(next', head, s[..k] + s[k + 1..]) && Distinct(s[..k] + s[k + 1..])
  {
    DistinctRemove(s, k);
    var s' := s[..k] + s[k + 1..];
    var here := Then(s, k);
    forall i: nat | i < |s'| ensures s'[i] < |next'| && next'[s'[i]] == Then(s', i) {
      var i' := if i < k then i else i + 1;
      assert s'[i] == s[i'];
      var link := Then(s, i');
      if i < k - 1 {
        assert Apart(s, i, k - 1);
      } else if i >= k {
        assert Apart(s, k - 1, i');
      }
    }
  }

  /** A node put in front. */
  lemma LinkedPush(next: seq<Link>, head: Link, s: seq<nat>, x: nat)
    requires Linked(next, head, s) && Distinct(s) && x < |next| && x !in s
    ensures Linked(next[x := head], Some(x), [x] + s) && Distinct([x] + s)
  {
    var s' := [x] + s;
    forall i: nat | i < |s'| ensures s'[i] < |next| && next[x := head][s'[i]] == Then(s', i) {
      if i > 0 {
        var link := Then(s, i - 1);
        assert s'[i] == s[i - 1] && s[i - 1] in s;
      }
    }
    forall i: nat, j: nat ensures Apart(s', i, j) {
      if 0 < i < j < |s'| {
        assert Apart(s, i - 1, j - 1);
      }
    }
  }

  /** Links of other nodes may change. */
  lemma LinkedElsewhere(next: seq<Link>, head: Link, s: seq<nat>, next': seq<Link>)
    requires Linked(next, head, s) && |next'| == |next| && forall y :: y in s && y < |next| ==> next'[y] == next[y]
    ensures Linked(next', head, s)
  {
    forall i: nat | i < |s| ensures s[i] < |next'| && next'[s[i]] == Then(s, i) {
      var link := Then(s, i);
      assert s[i] in s;
    }
  }
}
