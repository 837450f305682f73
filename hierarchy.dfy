/** The ledger hierarchy flattener (`buildHierarchy`): a flat list of records that
    name their parent by id becomes the pre-order list a drop-down shows, each record
    labelled with one `---` per level above it. */
module HierarchyHelper {
  import opened Common

  /** One input record.  `parentId` 0 stands for a parent that is absent, null or 0:
      all three are falsy and make the record a root.  `attributes` are the record's
      other columns, which the flattener carries along untouched. */
  datatype Ledger = Ledger(id: nat, name: string, parentId: nat, attributes: map<string, string>)

  /** The node the lookup table holds for an id: the record plus the ids of its
      children, in the order they were appended. */
  datatype Node = Node(entity: Ledger, children: seq<nat>)

  /** One output record: the input record, its children and its label. */
  datatype Row = Row(entity: Ledger, children: seq<nat>, displayName: string)

  /** An output record together with the recursion depth that produced its label. */
  datatype Visit = Visit(row: Row, depth: nat)

  const Marker: string := "---"

  /** The label prefix at a given depth: `Marker` once per level. */
  function Indent(depth: nat): (r: string)
    ensures |r| == |Marker| * depth
    ensures forall k :: 0 <= k < |r| ==> r[k] == '-'
  {
    if depth == 0 then "" else Indent(depth - 1) + Marker
  }

  // ---------------------------------------------------------------------------
  // The lookup table and the roots (the two forEach loops)
  // ---------------------------------------------------------------------------

  ghost function Ids(es: seq<Ledger>): set<nat> {
    set e | e in es :: e.id
  }

  predicate UniqueIds(es: seq<Ledger>) {
    forall i, j :: 0 <= i < j < |es| ==> es[i].id != es[j].id
  }

  /** `map[entity.id] = ...` for every record in turn: a later record with the same id
      replaces an earlier one. */
  function LastById(es: seq<Ledger>): (m: map<nat, Ledger>)
    ensures forall id :: id in m ==> m[id] in es && m[id].id == id
    ensures forall e :: e in es ==> e.id in m
  {
    if es == [] then map[]
    else
      var e := es[|es| - 1];
      var m := LastById(es[..|es| - 1])[e.id := e];
      assert forall x :: x in es ==> x in es[..|es| - 1] || x == e;
      m
  }

  /** Ids of the records whose (non-zero) parent is `p`, in input order. */
  function ChildIds(es: seq<Ledger>, p: nat): seq<nat> {
    if es == [] then []
    else
      var e := es[|es| - 1];
      ChildIds(es[..|es| - 1], p) + (if e.parentId != 0 && e.parentId == p then [e.id] else [])
  }

  /** Ids of the records with no parent, in input order. */
  function RootIds(es: seq<Ledger>): seq<nat> {
    if es == [] then []
    else
      var e := es[|es| - 1];
      RootIds(es[..|es| - 1]) + (if e.parentId == 0 then [e.id] else [])
  }

  /** The table `buildHierarchy` has built once both loops are done.  A child whose
      parent id names no record is pushed nowhere (`map[parentId]?.children`). */
  function NodeTable(es: seq<Ledger>): map<nat, Node> {
    var last := LastById(es);
    map id | id in last :: Node(last[id], ChildIds(es, id))
  }

  /** Every node is filed under its own id and every child id has a node. */
  ghost predicate WellFormed(t: map<nat, Node>) {
    && (forall k :: k in t ==> t[k].entity.id == k)
    && (forall k, c :: k in t && c in t[k].children ==> c in t)
  }

  lemma {:induction false} ChildIdsMember(es: seq<Ledger>, p: nat, c: nat)
    ensures c in ChildIds(es, p) <==> exists e :: e in es && e.id == c && e.parentId == p && p != 0
  {
    if es != [] {
      var pre, last := es[..|es| - 1], es[|es| - 1];
      ChildIdsMember(pre, p, c);
      assert es == pre + [last];
      if c in ChildIds(es, p) {
        if c in ChildIds(pre, p) {
          var e :| e in pre && e.id == c && e.parentId == p && p != 0;
          assert e in es;
        } else {
          assert last in es;
        }
      }
      forall e | e in es && e.id == c && e.parentId == p && p != 0 ensures c in ChildIds(es, p) {
        assert e in pre || e == last;
      }
    }
  }

  lemma {:induction false} RootIdsMember(es: seq<Ledger>, c: nat)
    ensures c in RootIds(es) <==> exists e :: e in es && e.id == c && e.parentId == 0
  {
    if es != [] {
      var pre, last := es[..|es| - 1], es[|es| - 1];
      RootIdsMember(pre, c);
      assert es == pre + [last];
      if c in RootIds(es) {
        if c in RootIds(pre) {
          var e :| e in pre && e.id == c && e.parentId == 0;
          assert e in es;
        } else {
          assert last in es;
        }
      }
      forall e | e in es && e.id == c && e.parentId == 0 ensures c in RootIds(es) {
        assert e in pre || e == last;
      }
    }
  }

  /** The table is well formed and holds every root. */
  lemma NodeTableWellFormed(es: seq<Ledger>)
    ensures WellFormed(NodeTable(es))
    ensures forall r :: r in RootIds(es) ==> r in NodeTable(es)
  {
    var t := NodeTable(es);
    forall k, c | k in t && c in t[k].children ensures c in t {
      ChildIdsMember(es, k, c);
    }
    forall r | r in RootIds(es) ensures r in t {
      RootIdsMember(es, r);
    }
  }

  /** The first `forEach`: a fresh node with no children under every id. */
  method FileNodes(es: seq<Ledger>) returns (table: map<nat, Node>)
    ensures table.Keys == LastById(es).Keys
    ensures forall id :: id in table ==> table[id] == Node(LastById(es)[id], [])
  {
    table := map[];
    for i := 0 to |es|
      invariant table.Keys == LastById(es[..i]).Keys
      invariant forall id :: id in table ==> table[id] == Node(LastById(es[..i])[id], [])
    {
      assert es[..i + 1][..i] == es[..i];
      table := table[es[i].id := Node(es[i], [])];
    }
    assert es[..|es|] == es;
  }

  /** The second `forEach`: each record with a non-zero parent is appended to that
      parent's node when there is one; every other record is appended to the roots. */
  method LinkChildren(es: seq<Ledger>, nodes: map<nat, Node>) returns (table: map<nat, Node>, roots: seq<nat>)
    requires nodes.Keys == LastById(es).Keys
    requires forall id :: id in nodes ==> nodes[id] == Node(LastById(es)[id], [])
    ensures table == NodeTable(es)
    ensures roots == RootIds(es)
  {
    table, roots := nodes, [];
    for i := 0 to |es|
      invariant table.Keys == LastById(es).Keys
      invariant forall id :: id in table ==> table[id] == Node(LastById(es)[id], ChildIds(es[..i], id))
      invariant roots == RootIds(es[..i])
    {
      var e := es[i];
      LinkStep(es, i);
      if e.parentId != 0 {
        if e.parentId in table {
          var n := table[e.parentId];
          table := table[e.parentId := n.(children := n.children + [e.id])];
        }
      } else {
        roots := roots + [e.id];
      }
    }
    assert es[..|es|] == es;
    TableIsNodeTable(es, table);
  }

  /** One more record extends its parent's child list, or the roots, by its id. */
  lemma LinkStep(es: seq<Ledger>, i: nat)
    requires i < |es|
    ensures forall id ::
              ChildIds(es[..i + 1], id) ==
              ChildIds(es[..i], id) + (if es[i].parentId != 0 && es[i].parentId == id then [es[i].id] else [])
    ensures RootIds(es[..i + 1]) == RootIds(es[..i]) + (if es[i].parentId == 0 then [es[i].id] else [])
  {
    assert es[..i + 1][..i] == es[..i];
  }

  lemma TableIsNodeTable(es: seq<Ledger>, table: map<nat, Node>)
    requires table.Keys == LastById(es).Keys
    requires forall id :: id in table ==> table[id] == Node(LastById(es)[id], ChildIds(es, id))
    ensures table == NodeTable(es)
  {
  }

  /** The two `forEach` loops of `buildHierarchy`. */
  method BuildTable(es: seq<Ledger>) returns (table: map<nat, Node>, roots: seq<nat>)
    ensures table == NodeTable(es)
    ensures roots == RootIds(es)
  {
    var nodes := FileNodes(es);
    table, roots := LinkChildren(es, nodes);
  }

  // ---------------------------------------------------------------------------
  // flatten
  // ---------------------------------------------------------------------------

  /** `flatten(nodes, prefix)` over the ids of `nodes`, with `prefix == Indent(depth)`:
      each node is emitted with its label and then, before its next sibling, the
      flattening of its children one level deeper.  `None` stands for a recursion
      that never ends: the source has no cycle check, and once `depth` reaches `bound`
      (any bound not below the number of distinct ids) the path from a root to the
      current node repeats a node, so the source would walk that loop forever. */
  function Walk(t: map<nat, Node>, ids: seq<nat>, depth: nat, bound: nat): Option<seq<Visit>>
    requires WellFormed(t)
    requires forall x :: x in ids ==> x in t
    decreases bound - depth, |ids|
  {
    if ids == [] then Some([])
    else if depth >= bound then None
    else
      var node := t[ids[0]];
      var below := Walk(t, node.children, depth + 1, bound);
      var after := Walk(t, ids[1..], depth, bound);
      if below.None? || after.None? then None
      else
        Some([Visit(Row(node.entity, node.children, Indent(depth) + node.entity.name), depth)]
             + below.value + after.value)
  }

  function RowsOf(vs: seq<Visit>): (rows: seq<Row>)
    ensures |rows| == |vs| && forall i :: 0 <= i < |vs| ==> rows[i] == vs[i].row
  {
    seq(|vs|, i requires 0 <= i < |vs| => vs[i].row)
  }

  function IdOf(v: Visit): nat {
    v.row.entity.id
  }

  /** The visits `buildHierarchy(entities)` produces, `None` when it does not return. */
  function HierarchyVisits(es: seq<Ledger>): Option<seq<Visit>> {
    NodeTableWellFormed(es);
    Walk(NodeTable(es), RootIds(es), 0, |es|)
  }

  /** `buildHierarchy(entities)`: the flattened rows, `None` when it does not return. */
  function Hierarchy(es: seq<Ledger>): Option<seq<Row>> {
    var vs := HierarchyVisits(es);
    if vs.None? then None else Some(RowsOf(vs.value))
  }

  /** The source's sequence of steps: build the table, then flatten from the roots. */
  method BuildHierarchy(es: seq<Ledger>) returns (result: Option<seq<Row>>)
    ensures result == Hierarchy(es)
  {
    var table, roots := BuildTable(es);
    NodeTableWellFormed(es);
    var vs := Walk(table, roots, 0, |es|);
    result := if vs.None? then None else Some(RowsOf(vs.value));
  }
}
