/** What the flattener does with a given set of records, when no two of them share an
    id: it always returns, it emits exactly the records whose chain of parents reaches
    a root, each at the depth of that chain, once; records whose parent is missing or
    that sit on (or below) a cycle of parents are dropped. */
module HierarchyTheorems {
  import opened Common
  import opened HierarchyHelper
  import opened HierarchyProperties

  // ---------------------------------------------------------------------------
  // Parent chains
  // ---------------------------------------------------------------------------

  /** The parent id of the record filed under `y` in the table `m`; 0 when it has none
      or there is none. */
  function Parent(m: map<nat, Ledger>, y: nat): (p: nat)
    ensures p != 0 ==> y in m && m[y].parentId == p
  {
    if y in m then m[y].parentId else 0
  }

  /** `y` names a record whose chain of parents reaches a root in exactly `L` steps. */
  ghost predicate Rooted(m: map<nat, Ledger>, y: nat, L: nat)
    decreases L
  {
    && y in m
    && if L == 0 then Parent(m, y) == 0
       else Parent(m, y) != 0 && Rooted(m, Parent(m, y), L - 1)
  }

  /** `y` and its first `L` ancestors. */
  function Chain(m: map<nat, Ledger>, y: nat, L: nat): (c: seq<nat>)
    ensures |c| == L + 1 && c[0] == y
    decreases L
  {
    if L == 0 then [y] else [y] + Chain(m, Parent(m, y), L - 1)
  }

  /** Following `k` parent links from `y` (through records that exist) reaches `o`. */
  ghost predicate Descends(m: map<nat, Ledger>, y: nat, o: nat, k: nat)
    decreases k
  {
    if k == 0 then y == o
    else y in m && Parent(m, y) != 0 && Descends(m, Parent(m, y), o, k - 1)
  }

  /** A record's depth below its root is unique. */
  lemma {:induction false} RootedUnique(m: map<nat, Ledger>, y: nat, L1: nat, L2: nat)
    requires Rooted(m, y, L1) && Rooted(m, y, L2)
    ensures L1 == L2
    decreases L1
  {
    if L1 != 0 && L2 != 0 {
      RootedUnique(m, Parent(m, y), L1 - 1, L2 - 1);
    }
  }

  lemma ChainTail(m: map<nat, Ledger>, y: nat, L: nat)
    requires L != 0
    ensures forall k :: 1 <= k <= L ==> Chain(m, y, L)[k] == Chain(m, Parent(m, y), L - 1)[k - 1]
  {
  }

  /** Each element of a rooted chain is rooted `k` steps closer to the root. */
  lemma {:induction false} ChainRooted(m: map<nat, Ledger>, y: nat, L: nat)
    requires Rooted(m, y, L)
    ensures forall k :: 0 <= k <= L ==> Rooted(m, Chain(m, y, L)[k], L - k)
    decreases L
  {
    if L != 0 {
      ChainRooted(m, Parent(m, y), L - 1);
      ChainTail(m, y, L);
    }
  }

  /** Each element of a chain is the parent of the one before it. */
  lemma {:induction false} ChainParents(m: map<nat, Ledger>, y: nat, L: nat)
    ensures forall k :: 0 <= k < L ==> Chain(m, y, L)[k + 1] == Parent(m, Chain(m, y, L)[k])
    decreases L
  {
    if L != 0 {
      ChainParents(m, Parent(m, y), L - 1);
      ChainTail(m, y, L);
    }
  }

  /** A rooted chain never repeats an id, and every id on it has a record. */
  lemma ChainDistinct(m: map<nat, Ledger>, y: nat, L: nat)
    requires Rooted(m, y, L)
    ensures Distinct(Chain(m, y, L))
    ensures forall k :: 0 <= k <= L ==> Chain(m, y, L)[k] in m
  {
    var c := Chain(m, y, L);
    ChainRooted(m, y, L);
    forall i, j | 0 <= i < j < |c| ensures c[i] != c[j] {
      if c[i] == c[j] {
        assert Rooted(m, c[i], L - i) && Rooted(m, c[j], L - j);
        RootedUnique(m, c[i], L - i, L - j);
      }
    }
  }

  lemma {:induction false} DistinctCard(s: seq<nat>)
    requires Distinct(s)
    ensures |(set x: nat | x in s)| == |s|
  {
    if s != [] {
      var rest := s[1..];
      assert forall i :: 0 <= i < |rest| ==> rest[i] == s[i + 1];
      assert Distinct(rest);
      DistinctCard(rest);
      var a := set x: nat | x in rest;
      assert s[0] !in a;
      assert (set x: nat | x in s) == a + {s[0]};
    } else {
      assert (set x: nat | x in s) == {};
    }
  }

  lemma {:induction false} SubsetCard(a: set<nat>, b: set<nat>)
    requires a <= b
    ensures |a| <= |b|
    decreases b
  {
    if a != {} {
      var x :| x in a;
      SubsetCard(a - {x}, b - {x});
    }
  }

  /** A sequence without repeats drawn from a set is no longer than the set. */
  lemma DistinctWithin(c: seq<nat>, k: set<nat>)
    requires Distinct(c) && forall i :: 0 <= i < |c| ==> c[i] in k
    ensures |c| <= |k|
  {
    DistinctCard(c);
    assert forall x :: x in c ==> x in k;
    SubsetCard((set x: nat | x in c), k);
  }

  lemma {:induction false} TableSize(es: seq<Ledger>)
    ensures |LastById(es).Keys| <= |es|
  {
    if es != [] {
      var pre := es[..|es| - 1];
      TableSize(pre);
      assert LastById(es).Keys == LastById(pre).Keys + {es[|es| - 1].id};
    }
  }

  /** A record can be at most `|m| - 1` levels deep: its chain holds distinct ids. */
  lemma RootedDepthBound(m: map<nat, Ledger>, y: nat, L: nat)
    requires Rooted(m, y, L)
    ensures L < |m.Keys|
  {
    ChainDistinct(m, y, L);
    DistinctWithin(Chain(m, y, L), m.Keys);
  }

  /** `y` descends `k` steps from `o` and is rooted: so is `o`, `k` levels higher. */
  lemma {:induction false} RootedAncestor(m: map<nat, Ledger>, y: nat, L: nat, o: nat, k: nat)
    requires Rooted(m, y, L) && Descends(m, y, o, k)
    ensures k <= L && Rooted(m, o, L - k)
    decreases k
  {
    if k != 0 {
      RootedAncestor(m, Parent(m, y), L - 1, o, k - 1);
    }
  }

  // ---------------------------------------------------------------------------
  // Unique ids
  // ---------------------------------------------------------------------------

  lemma UniqueLast(es: seq<Ledger>)
    requires UniqueIds(es)
    ensures forall e :: e in es ==> LastById(es)[e.id] == e
  {
  }

  /** With unique ids, a child's parent is the record it is listed under. */
  lemma ParentOfChild(es: seq<Ledger>, x: nat, c: nat)
    requires UniqueIds(es) && c in ChildIds(es, x)
    ensures x != 0 && c in LastById(es) && Parent(LastById(es), c) == x
  {
    ChildIdsMember(es, x, c);
    UniqueLast(es);
  }

  lemma RootIsRooted(es: seq<Ledger>, r: nat)
    requires UniqueIds(es) && r in RootIds(es)
    ensures Rooted(LastById(es), r, 0)
  {
    RootIdsMember(es, r);
    UniqueLast(es);
  }

  lemma ChildIsRooted(es: seq<Ledger>, x: nat, c: nat, d: nat)
    requires UniqueIds(es) && Rooted(LastById(es), x, d) && c in ChildIds(es, x)
    ensures Rooted(LastById(es), c, d + 1)
  {
    ParentOfChild(es, x, c);
  }

  /** A rooted record is listed under its parent (or among the roots). */
  lemma RootedIsListed(es: seq<Ledger>, y: nat, L: nat)
    requires Rooted(LastById(es), y, L)
    ensures L == 0 ==> y in RootIds(es)
    ensures L != 0 ==> y in ChildIds(es, Parent(LastById(es), y))
  {
    if L == 0 {
      RootIdsMember(es, y);
    } else {
      ChildIdsMember(es, Parent(LastById(es), y), y);
    }
  }

  lemma {:induction false} ChildIdsDistinct(es: seq<Ledger>, p: nat)
    requires UniqueIds(es)
    ensures Distinct(ChildIds(es, p))
  {
    if es != [] {
      var pre := es[..|es| - 1];
      var e := es[|es| - 1];
      ChildIdsDistinct(pre, p);
      if e.id in ChildIds(pre, p) {
        ChildIdsMember(pre, p, e.id);
      }
    }
  }

  lemma {:induction false} RootIdsDistinct(es: seq<Ledger>)
    requires UniqueIds(es)
    ensures Distinct(RootIds(es))
  {
    if es != [] {
      var pre := es[..|es| - 1];
      var e := es[|es| - 1];
      RootIdsDistinct(pre);
      if e.id in RootIds(pre) {
        RootIdsMember(pre, e.id);
      }
    }
  }

  /** What the walk needs to know about the table once ids are unique: each node holds
      the record filed under its id, and each child listed under a node names a record
      whose parent is that node, at most once. */
  ghost predicate Consistent(t: map<nat, Node>, m: map<nat, Ledger>) {
    && WellFormed(t)
    && t.Keys == m.Keys
    && (forall id :: id in t ==> t[id].entity == m[id])
    && (forall id, c :: id in t && c in t[id].children ==> id != 0 && c in m && Parent(m, c) == id)
    && (forall id :: id in t ==> Distinct(t[id].children))
  }

  /** With unique ids, the ids listed under `p` name distinct records whose parent is `p`. */
  lemma ChildIdsFacts(es: seq<Ledger>, p: nat)
    requires UniqueIds(es)
    ensures Distinct(ChildIds(es, p))
    ensures forall c :: c in ChildIds(es, p) ==> p != 0 && c in LastById(es) && Parent(LastById(es), c) == p
  {
    ChildIdsDistinct(es, p);
    forall c | c in ChildIds(es, p) ensures p != 0 && c in LastById(es) && Parent(LastById(es), c) == p {
      ParentOfChild(es, p, c);
    }
  }

  lemma NodeTableConsistent(es: seq<Ledger>)
    requires UniqueIds(es)
    ensures Consistent(NodeTable(es), LastById(es))
  {
    var t := NodeTable(es);
    var m := LastById(es);
    NodeTableWellFormed(es);
    assert t.Keys == m.Keys;
    forall id | id in t
      ensures t[id].entity == m[id] && Distinct(t[id].children)
      ensures forall c :: c in t[id].children ==> id != 0 && c in m && Parent(m, c) == id
    {
      ChildIdsFacts(es, id);
    }
  }

  // ---------------------------------------------------------------------------
  // The walk over a consistent table
  // ---------------------------------------------------------------------------

  /** Positions of `[vs[0]] + below + after` in terms of the parts. */
  lemma SplitIndex(vs: seq<Visit>, below: seq<Visit>, after: seq<Visit>)
    requires vs != [] && vs == [vs[0]] + below + after
    ensures forall i :: 1 <= i <= |below| ==> vs[i] == below[i - 1]
    ensures forall i :: 1 + |below| <= i < |vs| ==> vs[i] == after[i - 1 - |below|]
  {
  }

  lemma ChildrenRooted(t: map<nat, Node>, m: map<nat, Ledger>, x: nat, d: nat)
    requires Consistent(t, m) && x in t && Rooted(m, x, d)
    ensures forall c :: c in t[x].children ==> c in t && Rooted(m, c, d + 1)
  {
  }

  /** Starting from ids that are all rooted at depth `d`, the walk returns once the
      bound is at least the number of records. */
  lemma {:induction false} WalkTerminates(t: map<nat, Node>, m: map<nat, Ledger>, ids: seq<nat>, d: nat, b: nat)
    requires Consistent(t, m) && |m.Keys| <= b
    requires forall x :: x in ids ==> x in t && Rooted(m, x, d)
    ensures Walk(t, ids, d, b).Some?
    decreases b - d, |ids|
  {
    if ids != [] {
      RootedDepthBound(m, ids[0], d);
      ChildrenRooted(t, m, ids[0], d);
      WalkTerminates(t, m, t[ids[0]].children, d + 1, b);
      WalkTerminates(t, m, ids[1..], d, b);
    }
  }

  /** One step up a chain: an id listed under `x` has `x` as the next link. */
  lemma ChainStepUp(t: map<nat, Node>, m: map<nat, Ledger>, y: nat, L: nat, k: nat, x: nat)
    requires Consistent(t, m) && k < L && x in t
    requires Chain(m, y, L)[k] in t[x].children
    ensures Chain(m, y, L)[k + 1] == x
  {
    ChainParents(m, y, L);
  }

  /** Every visit is of a record rooted at the visit's depth, and its chain of parents
      passes through one of `ids`, `depth - d` steps up. */
  ghost predicate VisitsRooted(m: map<nat, Ledger>, vs: seq<Visit>, ids: seq<nat>, d: nat) {
    forall i :: 0 <= i < |vs| ==>
      && vs[i].depth >= d
      && Rooted(m, IdOf(vs[i]), vs[i].depth)
      && Chain(m, IdOf(vs[i]), vs[i].depth)[vs[i].depth - d] in ids
  }

  predicate VisitsDistinct(vs: seq<Visit>) {
    forall i, j :: 0 <= i < j < |vs| ==> IdOf(vs[i]) != IdOf(vs[j])
  }

  lemma VisitsRootedConcat(t: map<nat, Node>, m: map<nat, Ledger>, ids: seq<nat>, d: nat,
                           vs: seq<Visit>, below: seq<Visit>, after: seq<Visit>)
    requires Consistent(t, m) && ids != [] && ids[0] in t && Rooted(m, ids[0], d)
    requires vs != [] && vs == [vs[0]] + below + after
    requires IdOf(vs[0]) == ids[0] && vs[0].depth == d
    requires VisitsRooted(m, below, t[ids[0]].children, d + 1)
    requires VisitsRooted(m, after, ids[1..], d)
    ensures VisitsRooted(m, vs, ids, d)
  {
    SplitIndex(vs, below, after);
    forall i | 0 <= i < |vs|
      ensures vs[i].depth >= d && Rooted(m, IdOf(vs[i]), vs[i].depth)
        && Chain(m, IdOf(vs[i]), vs[i].depth)[vs[i].depth - d] in ids
    {
      if i == 0 {
      } else if i <= |below| {
        var v := below[i - 1];
        ChainStepUp(t, m, IdOf(v), v.depth, v.depth - d - 1, ids[0]);
      } else {
        var v := after[i - 1 - |below|];
        assert Chain(m, IdOf(v), v.depth)[v.depth - d] in ids[1..];
      }
    }
  }

  lemma DepthsDiffer(m: map<nat, Ledger>, y1: nat, L1: nat, y2: nat, L2: nat)
    requires Rooted(m, y1, L1) && Rooted(m, y2, L2) && L1 != L2
    ensures y1 != y2
  {
    if y1 == y2 {
      RootedUnique(m, y1, L1, L2);
    }
  }

  /** A record whose chain passes through one of `rest` at depth `d` is not the record
      `x`, rooted at `d`, when `x` is not in `rest`. */
  lemma NotThroughOthers(m: map<nat, Ledger>, x: nat, d: nat, y: nat, L: nat, rest: seq<nat>)
    requires Rooted(m, x, d) && Rooted(m, y, L) && d <= L
    requires Chain(m, y, L)[L - d] in rest && x !in rest
    ensures x != y
  {
    if x == y {
      RootedUnique(m, x, d, L);
    }
  }

  /** A record below `x` and a record below one of `rest` differ, when `x` is not in
      `rest`: their chains would otherwise meet at depth `d`. */
  lemma BranchesDiffer(t: map<nat, Node>, m: map<nat, Ledger>, x: nat, d: nat, u: Visit, v: Visit, rest: seq<nat>)
    requires Consistent(t, m) && x in t && x !in rest
    requires u.depth >= d + 1 && Rooted(m, IdOf(u), u.depth)
    requires Chain(m, IdOf(u), u.depth)[u.depth - d - 1] in t[x].children
    requires v.depth >= d && Rooted(m, IdOf(v), v.depth)
    requires Chain(m, IdOf(v), v.depth)[v.depth - d] in rest
    ensures IdOf(u) != IdOf(v)
  {
    if IdOf(u) == IdOf(v) {
      RootedUnique(m, IdOf(u), u.depth, v.depth);
      ChainStepUp(t, m, IdOf(u), u.depth, u.depth - d - 1, x);
    }
  }

  lemma VisitsDistinctConcat(t: map<nat, Node>, m: map<nat, Ledger>, ids: seq<nat>, d: nat,
                             vs: seq<Visit>, below: seq<Visit>, after: seq<Visit>)
    requires Consistent(t, m) && ids != [] && Distinct(ids) && ids[0] in t && Rooted(m, ids[0], d)
    requires vs != [] && vs == [vs[0]] + below + after
    requires IdOf(vs[0]) == ids[0] && vs[0].depth == d
    requires VisitsRooted(m, below, t[ids[0]].children, d + 1)
    requires VisitsRooted(m, after, ids[1..], d)
    requires VisitsDistinct(below) && VisitsDistinct(after)
    ensures VisitsDistinct(vs)
  {
    var x := ids[0];
    var rest := ids[1..];
    assert x !in rest;
    SplitIndex(vs, below, after);
    forall i, j | 0 <= i < j < |vs| ensures IdOf(vs[i]) != IdOf(vs[j]) {
      if i == 0 && j <= |below| {
        DepthsDiffer(m, x, d, IdOf(vs[j]), vs[j].depth);
      } else if i == 0 {
        var v := after[j - 1 - |below|];
        NotThroughOthers(m, x, d, IdOf(v), v.depth, rest);
      } else if j <= |below| {
        assert IdOf(below[i - 1]) != IdOf(below[j - 1]);
      } else if |below| < i {
        assert IdOf(after[i - 1 - |below|]) != IdOf(after[j - 1 - |below|]);
      } else {
        BranchesDiffer(t, m, x, d, below[i - 1], after[j - 1 - |below|], rest);
      }
    }
  }

  lemma {:induction false} WalkRooted(t: map<nat, Node>, m: map<nat, Ledger>, ids: seq<nat>, d: nat, b: nat)
    requires Consistent(t, m)
    requires forall x :: x in ids ==> x in t && Rooted(m, x, d)
    requires Walk(t, ids, d, b).Some?
    ensures VisitsRooted(m, Walk(t, ids, d, b).value, ids, d)
    decreases b - d, |ids|
  {
    if ids != [] {
      WalkSplit(t, ids, d, b);
      var children := t[ids[0]].children;
      ChildrenRooted(t, m, ids[0], d);
      WalkRooted(t, m, children, d + 1, b);
      WalkRooted(t, m, ids[1..], d, b);
      VisitsRootedConcat(t, m, ids, d, Walk(t, ids, d, b).value,
        Walk(t, children, d + 1, b).value, Walk(t, ids[1..], d, b).value);
    }
  }

  /** No record is visited twice when no id is given twice. */
  lemma {:induction false} WalkDistinct(t: map<nat, Node>, m: map<nat, Ledger>, ids: seq<nat>, d: nat, b: nat)
    requires Consistent(t, m) && Distinct(ids)
    requires forall x :: x in ids ==> x in t && Rooted(m, x, d)
    requires Walk(t, ids, d, b).Some?
    ensures VisitsDistinct(Walk(t, ids, d, b).value)
    decreases b - d, |ids|
  {
    if ids != [] {
      WalkSplit(t, ids, d, b);
      var children := t[ids[0]].children;
      ChildrenRooted(t, m, ids[0], d);
      assert Distinct(ids[1..]);
      WalkDistinct(t, m, children, d + 1, b);
      WalkDistinct(t, m, ids[1..], d, b);
      WalkRooted(t, m, children, d + 1, b);
      WalkRooted(t, m, ids[1..], d, b);
      VisitsDistinctConcat(t, m, ids, d, Walk(t, ids, d, b).value,
        Walk(t, children, d + 1, b).value, Walk(t, ids[1..], d, b).value);
    }
  }

  // ---------------------------------------------------------------------------
  // Every rooted record is visited
  // ---------------------------------------------------------------------------

  /** The table lists every record under its parent, and every parentless record is
      among the roots. */
  ghost predicate Complete(t: map<nat, Node>, m: map<nat, Ledger>, roots: seq<nat>) {
    && (forall r :: r in m && Parent(m, r) == 0 ==> r in roots)
    && (forall c :: c in m && Parent(m, c) != 0 && Parent(m, c) in t ==> c in t[Parent(m, c)].children)
  }

  lemma NodeTableComplete(es: seq<Ledger>)
    ensures Complete(NodeTable(es), LastById(es), RootIds(es))
  {
    var m := LastById(es);
    forall r | r in m && Parent(m, r) == 0 ensures r in RootIds(es) {
      RootIdsMember(es, r);
    }
    forall c | c in m && Parent(m, c) != 0 && Parent(m, c) in NodeTable(es)
      ensures c in NodeTable(es)[Parent(m, c)].children
    {
      ChildIdsMember(es, Parent(m, c), c);
    }
  }

  /** Every id of `roots` is visited at depth 0. */
  ghost predicate RootsVisited(vs: seq<Visit>, roots: seq<nat>) {
    forall r :: r in roots ==> exists i :: 0 <= i < |vs| && IdOf(vs[i]) == r && vs[i].depth == 0
  }

  /** Every child listed in the table under a visited record is visited one level
      deeper. */
  ghost predicate ChildrenVisited(t: map<nat, Node>, vs: seq<Visit>) {
    forall j, c :: 0 <= j < |vs| && IdOf(vs[j]) in t && c in t[IdOf(vs[j])].children ==>
      exists i :: 0 <= i < |vs| && IdOf(vs[i]) == c && vs[i].depth == vs[j].depth + 1
  }

  lemma WalkVisitsAll(t: map<nat, Node>, roots: seq<nat>, b: nat)
    requires WellFormed(t) && forall r :: r in roots ==> r in t
    requires Walk(t, roots, 0, b).Some?
    ensures RootsVisited(Walk(t, roots, 0, b).value, roots)
    ensures ChildrenVisited(t, Walk(t, roots, 0, b).value)
  {
    var vs := Walk(t, roots, 0, b).value;
    forall r | r in roots ensures exists i :: 0 <= i < |vs| && IdOf(vs[i]) == r && vs[i].depth == 0 {
      WalkVisitsIds(t, roots, 0, b, r);
    }
    WalkRows(t, roots, 0, b);
    forall j, c | 0 <= j < |vs| && IdOf(vs[j]) in t && c in t[IdOf(vs[j])].children
      ensures exists i :: 0 <= i < |vs| && IdOf(vs[i]) == c && vs[i].depth == vs[j].depth + 1
    {
      WalkVisitsChildren(t, roots, 0, b, j, c);
    }
  }

  /** A record rooted `L` levels down is visited, at depth `L`. */
  lemma {:induction false} RootedIsVisited(t: map<nat, Node>, m: map<nat, Ledger>, roots: seq<nat>, vs: seq<Visit>, y: nat, L: nat)
    requires Consistent(t, m) && Complete(t, m, roots)
    requires RootsVisited(vs, roots) && ChildrenVisited(t, vs)
    requires Rooted(m, y, L)
    ensures exists i :: 0 <= i < |vs| && IdOf(vs[i]) == y && vs[i].depth == L
    decreases L
  {
    if L != 0 {
      var p := Parent(m, y);
      RootedIsVisited(t, m, roots, vs, p, L - 1);
      var j :| 0 <= j < |vs| && IdOf(vs[j]) == p && vs[j].depth == L - 1;
      assert y in t[IdOf(vs[j])].children;
    }
  }

  // ---------------------------------------------------------------------------
  // buildHierarchy
  // ---------------------------------------------------------------------------

  function VisitIds(vs: seq<Visit>): (r: seq<nat>)
    ensures |r| == |vs| && forall i :: 0 <= i < |vs| ==> r[i] == IdOf(vs[i])
  {
    seq(|vs|, i requires 0 <= i < |vs| => IdOf(vs[i]))
  }

  /** For any input, when the flattener returns: the roots come first-level in input
      order, each record is followed by the block of its descendants whose first level
      is its children in input order, and each row holds the record last filed under
      its id, that record's children and its label. */
  lemma HierarchyShape(es: seq<Ledger>)
    requires HierarchyVisits(es).Some?
    ensures var vs := HierarchyVisits(es).value;
      && Hierarchy(es) == Some(RowsOf(vs))
      && TopLevel(vs, 0) == RootIds(es)
      && PreOrder(vs)
      && forall i :: 0 <= i < |vs| ==>
           && IdOf(vs[i]) in LastById(es)
           && vs[i].row.entity == LastById(es)[IdOf(vs[i])]
           && vs[i].row.entity in es
           && vs[i].row.children == ChildIds(es, IdOf(vs[i]))
           && vs[i].row.displayName == Indent(vs[i].depth) + vs[i].row.entity.name
  {
    NodeTableWellFormed(es);
    var t := NodeTable(es);
    WalkRows(t, RootIds(es), 0, |es|);
    WalkTopLevel(t, RootIds(es), 0, |es|);
    WalkBlocks(t, RootIds(es), 0, |es|);
  }

  /** With unique ids the flattener always returns: no parent chain can loop back on
      itself through the table's children lists. */
  lemma HierarchyReturns(es: seq<Ledger>)
    requires UniqueIds(es)
    ensures HierarchyVisits(es).Some? && Hierarchy(es).Some?
  {
    var t := NodeTable(es);
    var m := LastById(es);
    NodeTableConsistent(es);
    TableSize(es);
    forall r | r in RootIds(es) ensures r in t && Rooted(m, r, 0) {
      RootIsRooted(es, r);
    }
    WalkTerminates(t, m, RootIds(es), 0, |es|);
  }

  /** With unique ids, every visit is of a record whose chain of parents reaches a root
      in exactly as many steps as its depth, and no record is visited twice. */
  lemma HierarchyVisitsRooted(es: seq<Ledger>)
    requires UniqueIds(es)
    ensures HierarchyVisits(es).Some?
    ensures var vs := HierarchyVisits(es).value;
      && (forall i :: 0 <= i < |vs| ==> Rooted(LastById(es), IdOf(vs[i]), vs[i].depth))
      && VisitsDistinct(vs)
  {
    var t := NodeTable(es);
    var m := LastById(es);
    HierarchyReturns(es);
    NodeTableConsistent(es);
    forall r | r in RootIds(es) ensures r in t && Rooted(m, r, 0) {
      RootIsRooted(es, r);
    }
    RootIdsDistinct(es);
    WalkRooted(t, m, RootIds(es), 0, |es|);
    WalkDistinct(t, m, RootIds(es), 0, |es|);
  }

  /** With unique ids, every emitted row is of a record whose chain of parents reaches
      a root, in as many steps as its label has markers. */
  lemma EmittedIsRooted(es: seq<Ledger>, i: nat)
    requires UniqueIds(es)
    requires HierarchyVisits(es).Some? && i < |HierarchyVisits(es).value|
    ensures var v := HierarchyVisits(es).value[i];
      && Rooted(LastById(es), IdOf(v), v.depth)
      && v.row.displayName == Indent(v.depth) + v.row.entity.name
  {
    HierarchyVisitsRooted(es);
    HierarchyShape(es);
  }

  /** With unique ids, every record whose chain of parents reaches a root in `L` steps
      is emitted, `L` levels deep. */
  lemma RootedIsEmitted(es: seq<Ledger>, y: nat, L: nat)
    requires UniqueIds(es) && Rooted(LastById(es), y, L)
    ensures HierarchyVisits(es).Some?
    ensures var vs := HierarchyVisits(es).value;
      exists i :: 0 <= i < |vs| && IdOf(vs[i]) == y && vs[i].depth == L
  {
    var t := NodeTable(es);
    HierarchyReturns(es);
    NodeTableConsistent(es);
    NodeTableComplete(es);
    NodeTableWellFormed(es);
    WalkVisitsAll(t, RootIds(es), |es|);
    RootedIsVisited(t, LastById(es), RootIds(es), HierarchyVisits(es).value, y, L);
  }

  lemma EmittedRowIsRooted(es: seq<Ledger>, rows: seq<Row>, i: nat)
    requires UniqueIds(es) && Hierarchy(es) == Some(rows) && i < |rows|
    ensures exists L :: Rooted(LastById(es), rows[i].entity.id, L)
  {
    var vs := HierarchyVisits(es).value;
    assert rows[i] == vs[i].row;
    EmittedIsRooted(es, i);
  }

  lemma RootedRowIsEmitted(es: seq<Ledger>, rows: seq<Row>, y: nat, L: nat)
    requires UniqueIds(es) && Hierarchy(es) == Some(rows) && Rooted(LastById(es), y, L)
    ensures exists i :: 0 <= i < |rows| && rows[i].entity.id == y
  {
    var vs := HierarchyVisits(es).value;
    RootedIsEmitted(es, y, L);
    var i :| 0 <= i < |vs| && IdOf(vs[i]) == y && vs[i].depth == L;
    assert rows[i] == vs[i].row;
  }

  /** With unique ids, a record is emitted exactly when its chain of parents reaches a
      root. */
  lemma HierarchyEmitsRooted(es: seq<Ledger>, rows: seq<Row>, y: nat)
    requires UniqueIds(es) && Hierarchy(es) == Some(rows)
    ensures (exists i :: 0 <= i < |rows| && rows[i].entity.id == y) <==> (exists L :: Rooted(LastById(es), y, L))
  {
    if exists i :: 0 <= i < |rows| && rows[i].entity.id == y {
      var i :| 0 <= i < |rows| && rows[i].entity.id == y;
      EmittedRowIsRooted(es, rows, i);
    }
    if exists L :: Rooted(LastById(es), y, L) {
      var L :| Rooted(LastById(es), y, L);
      RootedRowIsEmitted(es, rows, y, L);
    }
  }

  /** With unique ids, a row's label carries one marker per ancestor of its record. */
  lemma HierarchyLabelsDepth(es: seq<Ledger>, rows: seq<Row>, i: nat, L: nat)
    requires UniqueIds(es) && Hierarchy(es) == Some(rows) && i < |rows|
    requires Rooted(LastById(es), rows[i].entity.id, L)
    ensures rows[i].displayName == Indent(L) + rows[i].entity.name
  {
    var vs := HierarchyVisits(es).value;
    assert rows[i] == vs[i].row;
    EmittedIsRooted(es, i);
    RootedUnique(LastById(es), IdOf(vs[i]), L, vs[i].depth);
  }

  /** A record is dropped, with all its descendants, when its parent id names no
      record. */
  lemma OrphanBranchDropped(es: seq<Ledger>, y: nat, o: nat, k: nat)
    requires UniqueIds(es)
    requires Descends(LastById(es), y, o, k)
    requires Parent(LastById(es), o) != 0 && Parent(LastById(es), o) !in LastById(es)
    ensures Hierarchy(es).Some?
    ensures forall row :: row in Hierarchy(es).value ==> row.entity.id != y
  {
    var m := LastById(es);
    HierarchyReturns(es);
    var vs := HierarchyVisits(es).value;
    forall row | row in Hierarchy(es).value ensures row.entity.id != y {
      var i :| 0 <= i < |vs| && vs[i].row == row;
      EmittedIsRooted(es, i);
      if row.entity.id == y {
        RootedAncestor(m, y, vs[i].depth, o, k);
      }
    }
  }

  /** A record is dropped, with all its descendants, when it lies on a cycle of
      parents. */
  lemma CycleBranchDropped(es: seq<Ledger>, y: nat, z: nat, k1: nat, k2: nat)
    requires UniqueIds(es)
    requires Descends(LastById(es), y, z, k1) && Descends(LastById(es), z, z, k2) && k2 > 0
    ensures Hierarchy(es).Some?
    ensures forall row :: row in Hierarchy(es).value ==> row.entity.id != y
  {
    var m := LastById(es);
    HierarchyReturns(es);
    var vs := HierarchyVisits(es).value;
    forall row | row in Hierarchy(es).value ensures row.entity.id != y {
      var i :| 0 <= i < |vs| && vs[i].row == row;
      EmittedIsRooted(es, i);
      if row.entity.id == y {
        CycleNotRooted(m, y, vs[i].depth, z, k1, k2);
      }
    }
  }

  lemma CycleNotRooted(m: map<nat, Ledger>, y: nat, L: nat, z: nat, k1: nat, k2: nat)
    requires Descends(m, y, z, k1) && Descends(m, z, z, k2) && k2 > 0
    ensures !Rooted(m, y, L)
  {
    if Rooted(m, y, L) {
      RootedAncestor(m, y, L, z, k1);
      RootedAncestor(m, z, L - k1, z, k2);
      RootedUnique(m, z, L - k1, L - k1 - k2);
    }
  }

  // ---------------------------------------------------------------------------
  // Forests
  // ---------------------------------------------------------------------------

  /** Unique ids, and every record's chain of parents reaches a root. */
  ghost predicate Forest(es: seq<Ledger>) {
    UniqueIds(es) && forall e :: e in es ==> exists L :: Rooted(LastById(es), e.id, L)
  }

  /** With unique ids the table holds one entry per record. */
  lemma TableSizeUnique(es: seq<Ledger>)
    requires UniqueIds(es)
    ensures |LastById(es).Keys| == |es|
  {
    var ids := seq(|es|, i requires 0 <= i < |es| => es[i].id);
    assert Distinct(ids);
    DistinctCard(ids);
    forall k | k in LastById(es) ensures k in ids {
      var e := LastById(es)[k];
      var i :| 0 <= i < |es| && es[i] == e;
      assert ids[i] == k;
    }
    forall k | k in ids ensures k in LastById(es) {
      var i :| 0 <= i < |ids| && ids[i] == k;
      assert es[i] in es;
    }
    assert (set x: nat | x in ids) == LastById(es).Keys;
  }

  /** The visits of a forest are exactly its records' ids, each once. */
  lemma ForestVisitIds(es: seq<Ledger>)
    requires Forest(es)
    ensures HierarchyVisits(es).Some?
    ensures var vs := HierarchyVisits(es).value;
      && Distinct(VisitIds(vs))
      && (set x: nat | x in VisitIds(vs)) == LastById(es).Keys
  {
    var m := LastById(es);
    HierarchyVisitsRooted(es);
    HierarchyShape(es);
    var vs := HierarchyVisits(es).value;
    var ids := VisitIds(vs);
    forall k | k in m ensures k in ids {
      var L :| Rooted(m, m[k].id, L);
      RootedIsEmitted(es, k, L);
      var i :| 0 <= i < |vs| && IdOf(vs[i]) == k && vs[i].depth == L;
      assert ids[i] == k;
    }
  }

  lemma ForestVisitCount(es: seq<Ledger>)
    requires Forest(es)
    ensures HierarchyVisits(es).Some? && |HierarchyVisits(es).value| == |es|
  {
    ForestVisitIds(es);
    var vs := HierarchyVisits(es).value;
    DistinctCard(VisitIds(vs));
    TableSizeUnique(es);
  }

  /** A forest is emitted in full: one row per record, holding that record. */
  lemma ForestEmitsEachOnce(es: seq<Ledger>, rows: seq<Row>)
    requires Forest(es) && Hierarchy(es) == Some(rows)
    ensures |rows| == |es|
    ensures forall e :: e in es ==> exists i :: 0 <= i < |rows| && rows[i].entity == e
    ensures forall i, j :: 0 <= i < j < |rows| ==> rows[i].entity.id != rows[j].entity.id
  {
    var m := LastById(es);
    var vs := HierarchyVisits(es).value;
    assert rows == RowsOf(vs);
    ForestVisitCount(es);
    HierarchyVisitsRooted(es);
    UniqueLast(es);
    forall e | e in es ensures exists i :: 0 <= i < |rows| && rows[i].entity == e {
      var L :| Rooted(m, e.id, L);
      RootedIsEmitted(es, e.id, L);
      var i :| 0 <= i < |vs| && IdOf(vs[i]) == e.id && vs[i].depth == L;
      HierarchyShape(es);
      assert rows[i].entity == e;
    }
  }
}
