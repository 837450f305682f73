/** `convertLedgersForHierarchy`: the rows a page loads become the `{id, name, parentId}`
    records the hierarchy flattener takes, the parent read from a column the caller names. */
module ParentConversion {
  import opened Common
  import opened HierarchyHelper

  /** A row as the server sends it.  `columns` holds the row's other properties: a
      missing key is an `undefined` property, `None` a property holding `null`. */
  datatype SourceRow = SourceRow(id: nat, name: string, columns: map<string, Option<nat>>)

  /** `l[parentColumnName] ?? 0`: the column's value, or 0 when it is undefined or null. */
  function ParentOf(l: SourceRow, column: string): (p: nat)
    ensures p != 0 ==> column in l.columns && l.columns[column] == Some(p)
    ensures column in l.columns && l.columns[column].Some? ==> p == l.columns[column].value
  {
    if column in l.columns && l.columns[column].Some? then l.columns[column].value else 0
  }

  /** One record per row, in the same order: id and name copied, the parent taken from
      the named column, and no other property carried over. */
  function Convert(ls: seq<SourceRow>, column: string): (es: seq<Ledger>)
    ensures |es| == |ls|
    ensures forall i :: 0 <= i < |ls| ==>
              es[i].id == ls[i].id && es[i].name == ls[i].name && es[i].attributes == map[]
    ensures forall i :: 0 <= i < |ls| ==> es[i].parentId == ParentOf(ls[i], column)
  {
    seq(|ls|, i requires 0 <= i < |ls| => Ledger(ls[i].id, ls[i].name, ParentOf(ls[i], column), map[]))
  }

  /** A record exported as a row whose only column is the named parent column. */
  function Export(es: seq<Ledger>, column: string): (ls: seq<SourceRow>)
    ensures |ls| == |es|
    ensures forall i :: 0 <= i < |es| ==> ls[i].id == es[i].id && ls[i].columns.Keys == {column}
  {
    seq(|es|, i requires 0 <= i < |es| => SourceRow(es[i].id, es[i].name, map[column := Some(es[i].parentId)]))
  }

  /** Drops the extra properties of every record. */
  function Bare(es: seq<Ledger>): (r: seq<Ledger>)
    ensures |r| == |es|
    ensures forall i :: 0 <= i < |es| ==> r[i].attributes == map[] && r[i].(attributes := es[i].attributes) == es[i]
  {
    seq(|es|, i requires 0 <= i < |es| => es[i].(attributes := map[]))
  }

  /** Converting the export of records gives back the records, stripped of their other
      properties: a stored parent 0 stays 0 and every other parent id survives. */
  lemma ConvertExport(es: seq<Ledger>, column: string)
    ensures Convert(Export(es, column), column) == Bare(es)
  {
  }

  /** Converting keeps the ids in place, so it keeps them unique. */
  lemma ConvertKeepsIds(ls: seq<SourceRow>, column: string)
    ensures UniqueIds(Convert(ls, column)) <==> forall i, j :: 0 <= i < j < |ls| ==> ls[i].id != ls[j].id
  {
  }

  /** A converted row is a root of the hierarchy exactly when its parent column is
      missing, null or 0. */
  lemma ConvertedRoots(ls: seq<SourceRow>, column: string, x: nat)
    ensures x in RootIds(Convert(ls, column)) <==>
            exists l :: l in ls && l.id == x &&
              (column !in l.columns || l.columns[column] == None || l.columns[column] == Some(0))
  {
    var es := Convert(ls, column);
    RootIdsMember(es, x);
    if x in RootIds(es) {
      var e :| e in es && e.id == x && e.parentId == 0;
      var i :| 0 <= i < |es| && es[i] == e;
      assert ls[i] in ls;
    }
    if exists l :: l in ls && l.id == x &&
         (column !in l.columns || l.columns[column] == None || l.columns[column] == Some(0)) {
      var l :| l in ls && l.id == x &&
         (column !in l.columns || l.columns[column] == None || l.columns[column] == Some(0));
      var i :| 0 <= i < |ls| && ls[i] == l;
      assert es[i] in es;
    }
  }
}
