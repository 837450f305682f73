/** Worked inputs for the flattener. */
module HierarchyExamples {
  import opened Common
  import opened HierarchyHelper

  const A := Ledger(1, "A", 0, map[])
  const B := Ledger(2, "B", 1, map[])
  const C := Ledger(3, "C", 0, map[])

  lemma SampleTable()
    ensures LastById([A, B, C]) == map[1 := A, 2 := B, 3 := C]
  {
    assert [A, B, C][..2] == [A, B] && [A, B][..1] == [A] && [A][..0] == [];
  }

  lemma SampleLinks()
    ensures RootIds([A, B, C]) == [1, 3]
    ensures ChildIds([A, B, C], 1) == [2]
    ensures ChildIds([A, B, C], 2) == [] && ChildIds([A, B, C], 3) == []
  {
    assert [A, B, C][..2] == [A, B] && [A, B][..1] == [A] && [A][..0] == [];
    assert RootIds([A]) == [1];
    assert RootIds([A, B]) == [1];
    assert ChildIds([A], 1) == [];
    assert ChildIds([A], 2) == [];
    assert ChildIds([A], 3) == [];
    assert ChildIds([A, B], 1) == [2];
    assert ChildIds([A, B], 2) == [];
    assert ChildIds([A, B], 3) == [];
  }

  const SampleNodes := map[1 := Node(A, [2]), 2 := Node(B, []), 3 := Node(C, [])]

  lemma SampleNodeTable()
    ensures NodeTable([A, B, C]) == SampleNodes
  {
    SampleTable();
    SampleLinks();
    var t := NodeTable([A, B, C]);
    assert t.Keys == {1, 2, 3} == SampleNodes.Keys;
    assert t[1] == SampleNodes[1] && t[2] == SampleNodes[2] && t[3] == SampleNodes[3];
  }

  lemma SampleWalk()
    ensures WellFormed(SampleNodes)
    ensures Walk(SampleNodes, [1, 3], 0, 3)
         == Some([Visit(Row(A, [2], "A"), 0), Visit(Row(B, [], "---B"), 1), Visit(Row(C, [], "C"), 0)])
  {
    var t := SampleNodes;
    assert Indent(1) + "B" == "---B";
    assert Indent(0) + "A" == "A" && Indent(0) + "C" == "C";
    assert [2][1..] == [] && [1, 3][1..] == [3] && [3][1..] == [];
    assert t[2] == Node(B, []) && t[3] == Node(C, []) && t[1] == Node(A, [2]);
    assert Walk(t, [], 2, 3) == Some([]) && Walk(t, [], 1, 3) == Some([]);
    var vb := Visit(Row(B, [], "---B"), 1);
    var vc := Visit(Row(C, [], "C"), 0);
    assert Walk(t, [2], 1, 3) == Some([vb] + [] + []);
    assert Walk(t, [3], 0, 3) == Some([vc] + [] + []);
    var va := Visit(Row(A, [2], "A"), 0);
    var w := Walk(t, [1, 3], 0, 3);
    assert w.Some?;
    assert w.value[0] == va;
    assert w.value == [va] + [vb] + [vc];
    assert [va] + [vb] + [vc] == [va, vb, vc];
  }

  /** Two roots, the first with one child: the child follows its parent, one marker
      deep, before the second root. */
  lemma ParentChildSibling()
    ensures Hierarchy([A, B, C]) == Some([Row(A, [2], "A"), Row(B, [], "---B"), Row(C, [], "C")])
  {
    var es := [A, B, C];
    var vs := [Visit(Row(A, [2], "A"), 0), Visit(Row(B, [], "---B"), 1), Visit(Row(C, [], "C"), 0)];
    assert HierarchyVisits(es) == Some(vs) by {
      SampleNodeTable();
      SampleLinks();
      SampleWalk();
    }
    var rows := RowsOf(vs);
    assert |rows| == 3 && rows[0] == vs[0].row && rows[1] == vs[1].row && rows[2] == vs[2].row;
    assert rows == [Row(A, [2], "A"), Row(B, [], "---B"), Row(C, [], "C")];
  }

  const First := Ledger(1, "First", 0, map[])
  const Second := Ledger(1, "Second", 1, map[])

  /** Two records share id 1 and the later one names 1 as its parent: the table files
      the later record under 1 and lists 1 among its own children, while the earlier
      record puts 1 among the roots, so the flattening never ends. */
  lemma SharedIdLoops()
    ensures Hierarchy([First, Second]) == None
  {
    var es := [First, Second];
    assert es[..1] == [First] && [First][..0] == [];
    assert LastById(es) == map[1 := Second];
    assert RootIds([First]) == [1];
    assert RootIds(es) == [1];
    assert ChildIds([First], 1) == [];
    assert ChildIds(es, 1) == [1];
    var t := NodeTable(es);
    assert t.Keys == {1};
    assert t == map[1 := Node(Second, [1])];
    assert Walk(t, [1], 2, 2) == None;
    assert Walk(t, [1], 1, 2) == None;
    assert Walk(t, [1], 0, 2) == None;
  }

  /** A record that is its own parent is neither a root nor reachable from one: it is
      left out. */
  lemma SelfParentDropped()
    ensures Hierarchy([Ledger(5, "Loop", 5, map[])]) == Some([])
  {
    var e := Ledger(5, "Loop", 5, map[]);
    assert [e][..0] == [];
    assert RootIds([e]) == [];
  }
}
