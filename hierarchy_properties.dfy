/** What `buildHierarchy` guarantees: the shape of its output for any input, its
    termination when ids are unique, which records it drops, and that for a forest it
    emits every record exactly once. */
module HierarchyProperties {
  import opened Common
  import opened HierarchyHelper

  // ---------------------------------------------------------------------------
  // Reading a list of visits
  // ---------------------------------------------------------------------------

  /** The ids of the visits made at depth `d`, in output order. */
  function TopLevel(vs: seq<Visit>, d: nat): seq<nat> {
    if vs == [] then []
    else (if vs[0].depth == d then [IdOf(vs[0])] else []) + TopLevel(vs[1..], d)
  }

  /** The first position at or after `k` whose depth is `d` or less (or the end). */
  function Scan(vs: seq<Visit>, d: nat, k: nat): (r: nat)
    requires k <= |vs|
    ensures k <= r <= |vs|
    decreases |vs| - k
  {
    if k == |vs| || vs[k].depth <= d then k else Scan(vs, d, k + 1)
  }

  /** The end of the block that follows visit `j`: the visits after it that are deeper
      than it, up to the next visit at its depth or above. */
  function BlockEnd(vs: seq<Visit>, j: nat): nat
    requires j < |vs|
  {
    Scan(vs, vs[j].depth, j + 1)
  }

  /** `Scan` stops at the first shallow visit: everything it skips is deeper. */
  lemma {:induction false} ScanStops(vs: seq<Visit>, d: nat, k: nat)
    requires k <= |vs|
    ensures forall m :: k <= m < Scan(vs, d, k) ==> vs[m].depth > d
    ensures Scan(vs, d, k) < |vs| ==> vs[Scan(vs, d, k)].depth <= d
    decreases |vs| - k
  {
    if k < |vs| && vs[k].depth > d {
      ScanStops(vs, d, k + 1);
    }
  }

  /** ... and it is the only position with that property. */
  lemma {:induction false} ScanIsFirstShallow(vs: seq<Visit>, d: nat, k: nat, r: nat)
    requires k <= r <= |vs|
    requires forall m :: k <= m < r ==> vs[m].depth > d
    requires r < |vs| ==> vs[r].depth <= d
    ensures Scan(vs, d, k) == r
    decreases r - k
  {
    if k < r {
      ScanIsFirstShallow(vs, d, k + 1, r);
    }
  }

  /** Scanning inside the window `vs[lo..hi]` scans the window, as long as the scan
      stops inside it or the visit right after it is shallow enough. */
  lemma ScanWindow(vs: seq<Visit>, lo: nat, hi: nat, d: nat, k: nat)
    requires lo + k <= hi <= |vs|
    requires Scan(vs[lo..hi], d, k) < hi - lo || hi == |vs| || vs[hi].depth <= d
    ensures Scan(vs, d, lo + k) == lo + Scan(vs[lo..hi], d, k)
  {
    var w := vs[lo..hi];
    var r := Scan(w, d, k);
    ScanStops(w, d, k);
    forall m | lo + k <= m < lo + r ensures vs[m].depth > d {
      assert vs[m] == w[m - lo];
    }
    if r < hi - lo {
      assert vs[lo + r] == w[r];
    }
    ScanIsFirstShallow(vs, d, lo + k, lo + r);
  }

  lemma {:induction false} TopLevelConcat(a: seq<Visit>, b: seq<Visit>, d: nat)
    ensures TopLevel(a + b, d) == TopLevel(a, d) + TopLevel(b, d)
  {
    if a == [] {
      assert a + b == b;
    } else {
      var ab := a + b;
      var head := if a[0].depth == d then [IdOf(a[0])] else [];
      assert ab[0] == a[0] && ab[1..] == a[1..] + b;
      assert TopLevel(ab, d) == head + TopLevel(a[1..] + b, d);
      TopLevelConcat(a[1..], b, d);
      assert TopLevel(a, d) == head + TopLevel(a[1..], d);
    }
  }

  lemma {:induction false} TopLevelDeeper(vs: seq<Visit>, d: nat)
    requires forall i :: 0 <= i < |vs| ==> vs[i].depth > d
    ensures TopLevel(vs, d) == []
  {
    if vs != [] {
      TopLevelDeeper(vs[1..], d);
    }
  }

  // ---------------------------------------------------------------------------
  // Shape of the output, for any input
  // ---------------------------------------------------------------------------

  /** Every visit is at least as deep as the call that made it, carries the record and
      children the table holds for its id, and is labelled `Indent(depth) + name`;
      the first visit is the first id, at the call's own depth. */
  lemma {:induction false} WalkRows(t: map<nat, Node>, ids: seq<nat>, d: nat, b: nat)
    requires WellFormed(t) && forall x :: x in ids ==> x in t
    requires Walk(t, ids, d, b).Some?
    ensures var vs := Walk(t, ids, d, b).value;
      && (ids == [] <==> vs == [])
      && (ids != [] ==> vs[0].depth == d && IdOf(vs[0]) == ids[0])
      && forall i :: 0 <= i < |vs| ==>
           && vs[i].depth >= d
           && IdOf(vs[i]) in t
           && vs[i].row.entity == t[IdOf(vs[i])].entity
           && vs[i].row.children == t[IdOf(vs[i])].children
           && vs[i].row.displayName == Indent(vs[i].depth) + vs[i].row.entity.name
    decreases b - d, |ids|
  {
    if ids != [] {
      var node := t[ids[0]];
      WalkRows(t, node.children, d + 1, b);
      WalkRows(t, ids[1..], d, b);
      var vs := Walk(t, ids, d, b).value;
      var below := Walk(t, node.children, d + 1, b).value;
      var after := Walk(t, ids[1..], d, b).value;
      assert vs == [vs[0]] + below + after;
      forall i | 0 <= i < |vs|
        ensures vs[i].depth >= d && IdOf(vs[i]) in t
          && vs[i].row.entity == t[IdOf(vs[i])].entity
          && vs[i].row.children == t[IdOf(vs[i])].children
          && vs[i].row.displayName == Indent(vs[i].depth) + vs[i].row.entity.name
      {
        if i == 0 {
        } else if i <= |below| {
          assert vs[i] == below[i - 1];
        } else {
          assert vs[i] == after[i - 1 - |below|];
        }
      }
    }
  }

  /** How one non-empty call of `Walk` splits: the first id's visit, the walk below it,
      then the walk over its siblings. */
  lemma WalkSplit(t: map<nat, Node>, ids: seq<nat>, d: nat, b: nat)
    requires WellFormed(t) && forall x :: x in ids ==> x in t
    requires ids != [] && Walk(t, ids, d, b).Some?
    ensures Walk(t, t[ids[0]].children, d + 1, b).Some? && Walk(t, ids[1..], d, b).Some?
    ensures var vs := Walk(t, ids, d, b).value;
      && vs[0].depth == d
      && IdOf(vs[0]) == ids[0]
      && vs[0].row.children == t[ids[0]].children
      && vs == [vs[0]] + Walk(t, t[ids[0]].children, d + 1, b).value + Walk(t, ids[1..], d, b).value
  {
  }

  /** The depths a call produces: its own depth first, never anything shallower. */
  lemma WalkDepths(t: map<nat, Node>, ids: seq<nat>, d: nat, b: nat)
    requires WellFormed(t) && forall x :: x in ids ==> x in t
    requires Walk(t, ids, d, b).Some?
    ensures var vs := Walk(t, ids, d, b).value;
      && (vs != [] ==> vs[0].depth == d)
      && forall i :: 0 <= i < |vs| ==> vs[i].depth >= d
  {
    WalkRows(t, ids, d, b);
  }

  lemma TopLevelOfSplit(vs: seq<Visit>, below: seq<Visit>, after: seq<Visit>, d: nat)
    requires vs != [] && vs == [vs[0]] + below + after && vs[0].depth == d
    requires forall i :: 0 <= i < |below| ==> below[i].depth >= d + 1
    ensures TopLevel(vs, d) == [IdOf(vs[0])] + TopLevel(after, d)
  {
    var rest := below + after;
    assert vs[1..] == rest;
    TopLevelDeeper(below, d);
    TopLevelConcat(below, after, d);
    assert TopLevel(rest, d) == TopLevel(after, d);
    assert TopLevel(vs, d) == [IdOf(vs[0])] + TopLevel(vs[1..], d);
  }

  /** The visits at the call's own depth are exactly the ids it was given, in order:
      siblings keep the order of the list they came from. */
  lemma {:induction false} WalkTopLevel(t: map<nat, Node>, ids: seq<nat>, d: nat, b: nat)
    requires WellFormed(t) && forall x :: x in ids ==> x in t
    requires Walk(t, ids, d, b).Some?
    ensures TopLevel(Walk(t, ids, d, b).value, d) == ids
    decreases b - d, |ids|
  {
    if ids != [] {
      WalkSplit(t, ids, d, b);
      var vs := Walk(t, ids, d, b).value;
      var below := Walk(t, t[ids[0]].children, d + 1, b).value;
      var after := Walk(t, ids[1..], d, b).value;
      WalkDepths(t, t[ids[0]].children, d + 1, b);
      WalkTopLevel(t, ids[1..], d, b);
      TopLevelOfSplit(vs, below, after, d);
      assert ids == [ids[0]] + ids[1..];
    }
  }

  /** The block property at one position. */
  predicate BlockAt(vs: seq<Visit>, j: nat)
    requires j < |vs|
  {
    TopLevel(vs[j + 1..BlockEnd(vs, j)], vs[j].depth + 1) == vs[j].row.children
  }

  /** Every visit is followed by a block whose top level is the visit's children. */
  predicate PreOrder(vs: seq<Visit>) {
    forall j :: 0 <= j < |vs| ==> BlockAt(vs, j)
  }

  /** A block inside the window `vs[lo..hi]` is a block of `vs`, provided the visit
      right after the window does not continue it. */
  lemma BlockAtWindow(vs: seq<Visit>, lo: nat, hi: nat, j: nat)
    requires lo + j < hi <= |vs|
    requires BlockAt(vs[lo..hi], j)
    requires hi == |vs| || vs[hi].depth <= vs[lo + j].depth
    ensures BlockAt(vs, lo + j)
  {
    var w := vs[lo..hi];
    assert w[j] == vs[lo + j];
    ScanWindow(vs, lo, hi, w[j].depth, j + 1);
    var e := BlockEnd(w, j);
    assert BlockEnd(vs, lo + j) == lo + e;
    assert vs[lo + j + 1..lo + e] == w[j + 1..e];
  }

  /** The block after the first visit is `vs[1..1 + n]` when those visits are all
      deeper than it and the next one is not. */
  lemma BlockAtHead(vs: seq<Visit>, n: nat)
    requires 1 + n <= |vs|
    requires forall i :: 1 <= i < 1 + n ==> vs[i].depth > vs[0].depth
    requires 1 + n == |vs| || vs[1 + n].depth <= vs[0].depth
    requires TopLevel(vs[1..1 + n], vs[0].depth + 1) == vs[0].row.children
    ensures BlockAt(vs, 0)
  {
    ScanIsFirstShallow(vs, vs[0].depth, 1, 1 + n);
  }

  /** `vs = [vs[0]] + below + after` read as windows of `vs`. */
  lemma SplitWindows(vs: seq<Visit>, below: seq<Visit>, after: seq<Visit>, d: nat)
    requires vs != [] && vs == [vs[0]] + below + after
    requires forall i :: 0 <= i < |below| ==> below[i].depth >= d + 1
    requires forall i :: 0 <= i < |after| ==> after[i].depth >= d
    ensures vs[1..1 + |below|] == below && vs[1 + |below|..] == after
    ensures forall i :: 1 <= i < 1 + |below| ==> vs[i].depth > d
    ensures forall i :: 1 + |below| <= i < |vs| ==> vs[i].depth >= d
  {
    forall i | 1 <= i < 1 + |below| ensures vs[i].depth > d {
      assert vs[i] == below[i - 1];
    }
    forall i | 1 + |below| <= i < |vs| ensures vs[i].depth >= d {
      assert vs[i] == after[i - 1 - |below|];
    }
  }

  lemma PreOrderConcat(vs: seq<Visit>, n: nat)
    requires 1 + n <= |vs|
    requires forall i :: 1 <= i < 1 + n ==> vs[i].depth > vs[0].depth
    requires 1 + n < |vs| ==> vs[1 + n].depth == vs[0].depth
    requires forall i :: 1 + n <= i < |vs| ==> vs[i].depth >= vs[0].depth
    requires TopLevel(vs[1..1 + n], vs[0].depth + 1) == vs[0].row.children
    requires PreOrder(vs[1..1 + n]) && PreOrder(vs[1 + n..])
    ensures PreOrder(vs)
  {
    forall j | 0 <= j < |vs| ensures BlockAt(vs, j) {
      if j == 0 {
        BlockAtHead(vs, n);
      } else if j <= n {
        assert BlockAt(vs[1..1 + n], j - 1);
        BlockAtWindow(vs, 1, 1 + n, j - 1);
      } else {
        assert vs[1 + n..] == vs[1 + n..|vs|];
        assert BlockAt(vs[1 + n..|vs|], j - 1 - n);
        BlockAtWindow(vs, 1 + n, |vs|, j - 1 - n);
      }
    }
  }

  /** Pre-order: every visit is followed by the block of visits deeper than it, and
      the top level of that block is the visited record's children, in order. */
  lemma {:induction false} WalkBlocks(t: map<nat, Node>, ids: seq<nat>, d: nat, b: nat)
    requires WellFormed(t) && forall x :: x in ids ==> x in t
    requires Walk(t, ids, d, b).Some?
    ensures PreOrder(Walk(t, ids, d, b).value)
    decreases b - d, |ids|
  {
    if ids != [] {
      WalkSplit(t, ids, d, b);
      var children := t[ids[0]].children;
      var vs := Walk(t, ids, d, b).value;
      var below := Walk(t, children, d + 1, b).value;
      var after := Walk(t, ids[1..], d, b).value;
      WalkDepths(t, children, d + 1, b);
      WalkDepths(t, ids[1..], d, b);
      WalkTopLevel(t, children, d + 1, b);
      WalkBlocks(t, children, d + 1, b);
      WalkBlocks(t, ids[1..], d, b);
      PreOrderOfSplit(vs, below, after, d);
    }
  }

  /** A visit followed by its children's pre-order block and then its siblings'
      pre-order output is in pre-order. */
  lemma PreOrderOfSplit(vs: seq<Visit>, below: seq<Visit>, after: seq<Visit>, d: nat)
    requires vs != [] && vs == [vs[0]] + below + after && vs[0].depth == d
    requires forall i :: 0 <= i < |below| ==> below[i].depth >= d + 1
    requires after != [] ==> after[0].depth == d
    requires forall i :: 0 <= i < |after| ==> after[i].depth >= d
    requires TopLevel(below, d + 1) == vs[0].row.children
    requires PreOrder(below) && PreOrder(after)
    ensures PreOrder(vs)
  {
    SplitWindows(vs, below, after, d);
    PreOrderConcat(vs, |below|);
  }

  // ---------------------------------------------------------------------------
  // Finding a record in the output
  // ---------------------------------------------------------------------------

  lemma {:induction false} TopLevelMember(vs: seq<Visit>, d: nat, x: nat)
    requires x in TopLevel(vs, d)
    ensures exists i :: 0 <= i < |vs| && IdOf(vs[i]) == x && vs[i].depth == d
  {
    if vs[0].depth == d && IdOf(vs[0]) == x {
    } else {
      TopLevelMember(vs[1..], d, x);
      var i :| 0 <= i < |vs[1..]| && IdOf(vs[1..][i]) == x && vs[1..][i].depth == d;
      assert vs[i + 1] == vs[1..][i];
    }
  }

  /** Every id a call is given is visited. */
  lemma WalkVisitsIds(t: map<nat, Node>, ids: seq<nat>, d: nat, b: nat, x: nat)
    requires WellFormed(t) && forall y :: y in ids ==> y in t
    requires Walk(t, ids, d, b).Some? && x in ids
    ensures var vs := Walk(t, ids, d, b).value;
      exists i :: 0 <= i < |vs| && IdOf(vs[i]) == x && vs[i].depth == d
  {
    WalkTopLevel(t, ids, d, b);
    TopLevelMember(Walk(t, ids, d, b).value, d, x);
  }

  /** Every child of a visited record is visited, one level deeper, after it. */
  lemma WalkVisitsChildren(t: map<nat, Node>, ids: seq<nat>, d: nat, b: nat, j: nat, c: nat)
    requires WellFormed(t) && forall y :: y in ids ==> y in t
    requires Walk(t, ids, d, b).Some?
    requires j < |Walk(t, ids, d, b).value| && c in Walk(t, ids, d, b).value[j].row.children
    ensures var vs := Walk(t, ids, d, b).value;
      exists i :: j < i < |vs| && IdOf(vs[i]) == c && vs[i].depth == vs[j].depth + 1
  {
    var vs := Walk(t, ids, d, b).value;
    WalkBlocks(t, ids, d, b);
    assert BlockAt(vs, j);
    var block := vs[j + 1..BlockEnd(vs, j)];
    TopLevelMember(block, vs[j].depth + 1, c);
    var k :| 0 <= k < |block| && IdOf(block[k]) == c && block[k].depth == vs[j].depth + 1;
    assert block[k] == vs[j + 1 + k];
  }
}
