/** The role-permission matrix page: one row per application page, one column per
    action.  A role's saved permissions are loaded into the matrix, cells are toggled
    one at a time or a column at a time, and the matrix is sent back as one item per
    page.  Every edit is gated by the permission record of the page itself. */
module RolePermissions {
  import opened Common

  datatype Action = Add | Edit | View | Delete | Print | Download

  /** The six actions, in the order of the page's column headers. */
  const Actions: seq<Action> := [Add, Edit, View, Delete, Print, Download]

  /** `pagePermissions["is" + action]`. */
  function Allows(perms: Permissions, a: Action): (b: bool)
    ensures a == Add ==> b == perms.isAdd
    ensures a == Edit ==> b == perms.isEdit
    ensures a == View ==> b == perms.isView
    ensures a == Delete ==> b == perms.isDelete
    ensures a == Print ==> b == perms.isPrint
    ensures a == Download ==> b == perms.isDownload
  {
    match a
    case Add => perms.isAdd
    case Edit => perms.isEdit
    case View => perms.isView
    case Delete => perms.isDelete
    case Print => perms.isPrint
    case Download => perms.isDownload
  }

  /** An application page as the page list delivers it; `subModuleId` 0 stands for
      a missing one. */
  datatype Page = Page(id: nat, subModuleId: nat)

  /** The matrix: a cell the map does not hold reads as unchecked, as a missing
      property does. */
  type Matrix = map<(nat, Action), bool>

  function Cell(m: Matrix, page: nat, a: Action): bool {
    (page, a) in m && m[(page, a)]
  }

  // ---------------------------------------------------------------------------
  // Reading a role's permissions
  // ---------------------------------------------------------------------------

  /** `x ?? y ?? ...`: the first value that is neither null nor undefined. */
  function FirstPresent<T>(xs: seq<Option<T>>): (r: Option<T>)
    ensures r.Some? ==> r in xs
  {
    if xs == [] then None
    else if xs[0].Some? then xs[0]
    else FirstPresent(xs[1..])
  }

  /** `FirstPresent` yields a value exactly when some entry holds one, and then the
      value of the first such entry. */
  lemma FirstPresentCons<T>(x: Option<T>, rest: seq<Option<T>>)
    ensures FirstPresent([x] + rest) == if x.Some? then x else FirstPresent(rest)
  {
    assert ([x] + rest)[1..] == rest;
  }

  lemma {:induction false} FirstPresentIsFirst<T>(xs: seq<Option<T>>)
    ensures FirstPresent(xs).None? <==> forall i :: 0 <= i < |xs| ==> xs[i].None?
    ensures FirstPresent(xs).Some? ==>
              exists i :: 0 <= i < |xs| && xs[i] == FirstPresent(xs) && forall j :: 0 <= j < i ==> xs[j].None?
  {
    if xs != [] && xs[0].None? {
      var tail := xs[1..];
      FirstPresentIsFirst(tail);
      if FirstPresent(tail).Some? {
        var i :| 0 <= i < |tail| && tail[i] == FirstPresent(tail) && forall j :: 0 <= j < i ==> tail[j].None?;
        assert xs[i + 1] == tail[i];
        assert forall j :: 0 < j < i + 1 ==> xs[j] == tail[j - 1];
      } else {
        assert forall i :: 0 < i < |xs| ==> xs[i] == tail[i - 1];
      }
    } else if xs != [] {
      assert xs[0] == FirstPresent(xs);
    }
  }

  /** The four spellings a server may use for a flag: `add`, `Add`, `isAdd`, `IsAdd`. */
  datatype Spelling = Lower | Capital | IsLower | IsCapital

  /** One permission record of the response.  A missing key is a property that is
      null or undefined. */
  datatype PermRecord = PermRecord(pageId: Option<nat>, pageIdCapital: Option<nat>, id: Option<nat>,
                                   flags: map<(Action, Spelling), bool>)

  function Spelled(r: PermRecord, a: Action, s: Spelling): Option<bool> {
    if (a, s) in r.flags then Some(r.flags[(a, s)]) else None
  }

  /** `p.pageId ?? p.PageId ?? p.id`, with 0 for a missing id; 0 is skipped. */
  function Pid(r: PermRecord): nat {
    var p := FirstPresent([r.pageId, r.pageIdCapital, r.id]);
    if p.Some? then p.value else 0
  }

  /** `!!(p.add ?? p.Add ?? p.isAdd ?? p.IsAdd)`, and likewise for each action. */
  function Flag(r: PermRecord, a: Action): bool {
    var v := FirstPresent(SpellingsOf(r, a));
    v.Some? && v.value
  }

  function SpellingsOf(r: PermRecord, a: Action): seq<Option<bool>> {
    [Spelled(r, a, Lower)] + ([Spelled(r, a, Capital)] + ([Spelled(r, a, IsLower)] + [Spelled(r, a, IsCapital)]))
  }

  /** A property of the response: absent (or neither an array nor an object), an
      array of records, or an object that may carry an array `page`. */
  datatype Field = Absent | List(items: seq<PermRecord>) | Nested(page: Option<seq<PermRecord>>)

  /** The response body: null, an object with the properties the page looks at, or a
      bare array. */
  datatype Raw = Nothing | Object(page: Field, pages: Field, output: Field, data: Field) | Array(items: seq<PermRecord>)

  function AsList(f: Field): Option<seq<PermRecord>> {
    if f.List? then Some(f.items) else None
  }

  function NestedPage(f: Field): Option<seq<PermRecord>> {
    if f.Nested? then f.page else None
  }

  /** The places the records may be found, in the order the page tries them:
      `raw.page`, `raw.pages`, `raw.output.page`, `raw.output`, `raw.data`,
      `raw.data.page`, `raw` itself. */
  function Candidates(raw: Raw): seq<Option<seq<PermRecord>>> {
    match raw
    case Nothing => []
    case Array(items) => [Some(items)]
    case Object(page, pages, output, data) =>
      [AsList(page)] + ([AsList(pages)] + ([NestedPage(output)] + ([AsList(output)] + ([AsList(data)]
        + ([NestedPage(data)] + [None])))))
  }

  /** The `if` / `else if` chain choosing the records array. */
  function PermsArray(raw: Raw): (recs: seq<PermRecord>)
  {
    match raw
    case Nothing => []
    case Array(items) => items
    case Object(page, pages, output, data) =>
      if page.List? then page.items
      else if pages.List? then pages.items
      else if output.Nested? && output.page.Some? then output.page.value
      else if output.List? then output.items
      else if data.List? then data.items
      else if data.Nested? && data.page.Some? then data.page.value
      else []
  }

  /** The chain takes the first place that holds an array, and no records when none
      does. */
  lemma PermsArrayIsFirstCandidate(raw: Raw)
    ensures var c := FirstPresent(Candidates(raw));
      PermsArray(raw) == if c.Some? then c.value else []
  {
    match raw
    case Nothing =>
    case Array(items) =>
      var empty: seq<Option<seq<PermRecord>>> := [];
      FirstPresentCons(Some(items), empty);
      assert [Some(items)] + empty == [Some(items)];
    case Object(page, pages, output, data) =>
      var empty: seq<Option<seq<PermRecord>>> := [];
      var none: seq<Option<seq<PermRecord>>> := [None];
      FirstPresentCons(None, empty);
      assert [None] + empty == none;
      var c5 := [NestedPage(data)] + none;
      FirstPresentCons(NestedPage(data), none);
      var c4 := [AsList(data)] + c5;
      FirstPresentCons(AsList(data), c5);
      var c3 := [AsList(output)] + c4;
      FirstPresentCons(AsList(output), c4);
      var c2 := [NestedPage(output)] + c3;
      FirstPresentCons(NestedPage(output), c3);
      var c1 := [AsList(pages)] + c2;
      FirstPresentCons(AsList(pages), c2);
      FirstPresentCons(AsList(page), c1);
  }

  /** The six cells of one page set at once. */
  function WriteRow(m: Matrix, page: nat, row: Action -> bool): Matrix {
    m[(page, Add) := row(Add)][(page, Edit) := row(Edit)][(page, View) := row(View)]
     [(page, Delete) := row(Delete)][(page, Print) := row(Print)][(page, Download) := row(Download)]
  }

  /** Writing a row sets the page's six cells and no other. */
  lemma WriteRowCells(m: Matrix, page: nat, row: Action -> bool, x: nat, a: Action)
    ensures Cell(WriteRow(m, page, row), x, a) == if x == page then row(a) else Cell(m, x, a)
  {
    match a
    case Add =>
    case Edit =>
    case View =>
    case Delete =>
    case Print =>
    case Download =>
  }

  /** `pages.forEach(p => mapped[p.id] = {all six: false})`. */
  function Blank(pages: seq<Page>): Matrix {
    if pages == [] then map[]
    else WriteRow(Blank(pages[..|pages| - 1]), pages[|pages| - 1].id, _ => false)
  }

  /** `permsArray.forEach(...)`: each record with a non-zero page id overwrites that
      page's whole row. */
  function Overwrite(m: Matrix, recs: seq<PermRecord>): Matrix {
    if recs == [] then m
    else
      var r := recs[|recs| - 1];
      var prior := Overwrite(m, recs[..|recs| - 1]);
      if Pid(r) == 0 then prior else WriteRow(prior, Pid(r), a => Flag(r, a))
  }

  function RoleMatrix(pages: seq<Page>, recs: seq<PermRecord>): Matrix {
    Overwrite(Blank(pages), recs)
  }

  predicate HasPage(pages: seq<Page>, x: nat) {
    exists i :: 0 <= i < |pages| && pages[i].id == x
  }

  /** Blanking sets every known page's cells to unchecked and touches no others. */
  lemma {:induction false} BlankCells(pages: seq<Page>, x: nat, a: Action)
    ensures (x, a) in Blank(pages) <==> HasPage(pages, x)
    ensures !Cell(Blank(pages), x, a)
  {
    if pages != [] {
      var init := pages[..|pages| - 1];
      BlankCells(init, x, a);
      WriteRowCells(Blank(init), pages[|pages| - 1].id, _ => false, x, a);
      if HasPage(pages, x) && pages[|pages| - 1].id != x {
        var i :| 0 <= i < |pages| && pages[i].id == x;
        assert init[i].id == x;
      }
    }
  }

  /** A page no record names keeps the cells it had. */
  lemma {:induction false} OverwriteUntouched(m: Matrix, recs: seq<PermRecord>, x: nat, a: Action)
    requires forall i :: 0 <= i < |recs| ==> Pid(recs[i]) != x
    ensures Cell(Overwrite(m, recs), x, a) == Cell(m, x, a)
  {
    if recs != [] {
      var init := recs[..|recs| - 1];
      var r := recs[|recs| - 1];
      OverwriteUntouched(m, init, x, a);
      WriteRowCells(Overwrite(m, init), Pid(r), a => Flag(r, a), x, a);
    }
  }

  /** A cell of a page named by some record holds the flag of the last record that
      names it. */
  lemma {:induction false} OverwriteLast(m: Matrix, recs: seq<PermRecord>, i: nat, a: Action)
    requires i < |recs| && Pid(recs[i]) != 0
    requires forall j :: i < j < |recs| ==> Pid(recs[j]) != Pid(recs[i])
    ensures Cell(Overwrite(m, recs), Pid(recs[i]), a) == Flag(recs[i], a)
  {
    var init := recs[..|recs| - 1];
    var r := recs[|recs| - 1];
    if i < |recs| - 1 {
      OverwriteLast(m, init, i, a);
    }
    WriteRowCells(Overwrite(m, init), Pid(r), a => Flag(r, a), Pid(recs[i]), a);
  }

  /** On a role change every known page starts unchecked; a page that no record names
      stays so, and a page that records name takes the flags of the last of them. */
  lemma RoleMatrixCells(pages: seq<Page>, recs: seq<PermRecord>, x: nat, a: Action)
    ensures (forall i :: 0 <= i < |recs| ==> Pid(recs[i]) != x) ==> !Cell(RoleMatrix(pages, recs), x, a)
    ensures forall i :: (0 <= i < |recs| && Pid(recs[i]) == x != 0
                         && (forall j :: i < j < |recs| ==> Pid(recs[j]) != x)) ==>
               Cell(RoleMatrix(pages, recs), x, a) == Flag(recs[i], a)
  {
    BlankCells(pages, x, a);
    if forall i :: 0 <= i < |recs| ==> Pid(recs[i]) != x {
      OverwriteUntouched(Blank(pages), recs, x, a);
    }
    forall i | 0 <= i < |recs| && Pid(recs[i]) == x != 0 && (forall j :: i < j < |recs| ==> Pid(recs[j]) != x)
      ensures Cell(RoleMatrix(pages, recs), x, a) == Flag(recs[i], a)
    {
      OverwriteLast(Blank(pages), recs, i, a);
    }
  }

  /** A record without a usable page id changes nothing. */
  lemma SkipsRecordWithoutId(m: Matrix, recs: seq<PermRecord>, r: PermRecord)
    requires Pid(r) == 0
    ensures Overwrite(m, recs + [r]) == Overwrite(m, recs)
  {
    assert (recs + [r])[..|recs|] == recs;
  }

  /** A flag takes the first spelling present, in the order lower, capitalised,
      `is`-prefixed, capitalised `is`-prefixed; a record with none of them denies. */
  lemma FlagSpellings(r: PermRecord, a: Action)
    ensures (a, Lower) in r.flags ==> Flag(r, a) == r.flags[(a, Lower)]
    ensures (a, Lower) !in r.flags && (a, Capital) in r.flags ==> Flag(r, a) == r.flags[(a, Capital)]
    ensures (a, Lower) !in r.flags && (a, Capital) !in r.flags && (a, IsLower) in r.flags ==>
              Flag(r, a) == r.flags[(a, IsLower)]
    ensures (a, Lower) !in r.flags && (a, Capital) !in r.flags && (a, IsLower) !in r.flags && (a, IsCapital) in r.flags ==>
              Flag(r, a) == r.flags[(a, IsCapital)]
    ensures (forall s :: (a, s) !in r.flags) ==> !Flag(r, a)
  {
    var last := [Spelled(r, a, IsCapital)];
    var empty: seq<Option<bool>> := [];
    FirstPresentCons(Spelled(r, a, IsCapital), empty);
    assert [Spelled(r, a, IsCapital)] + empty == last;
    var c2 := [Spelled(r, a, IsLower)] + last;
    FirstPresentCons(Spelled(r, a, IsLower), last);
    var c1 := [Spelled(r, a, Capital)] + c2;
    FirstPresentCons(Spelled(r, a, Capital), c2);
    FirstPresentCons(Spelled(r, a, Lower), c1);
  }

  // ---------------------------------------------------------------------------
  // Editing the matrix
  // ---------------------------------------------------------------------------

  /** One cell flipped; a cell never set flips to checked. */
  function Toggle(m: Matrix, page: nat, a: Action): (r: Matrix)
    ensures forall x, b :: Cell(r, x, b) == if x == page && b == a then !Cell(m, x, b) else Cell(m, x, b)
  {
    m[(page, a) := !Cell(m, page, a)]
  }

  /** `pages.every(p => permissions[p.id]?.[action])`. */
  predicate AllChecked(m: Matrix, pages: seq<Page>, a: Action) {
    forall i :: 0 <= i < |pages| ==> Cell(m, pages[i].id, a)
  }

  /** `pages.length > 0 && pages.every(p => permissions[p.id]?.[action])`: the
      header box of column `a` is ticked. */
  predicate FullySelected(m: Matrix, pages: seq<Page>, a: Action) {
    |pages| > 0 && AllChecked(m, pages, a)
  }

  /** The cells of column `a` set to `v` for every listed page. */
  function SetColumn(m: Matrix, pages: seq<Page>, a: Action, v: bool): Matrix {
    if pages == [] then m
    else SetColumn(m, pages[..|pages| - 1], a, v)[(pages[|pages| - 1].id, a) := v]
  }

  lemma {:induction false} SetColumnCells(m: Matrix, pages: seq<Page>, a: Action, v: bool, x: nat, b: Action)
    ensures Cell(SetColumn(m, pages, a, v), x, b) == if b == a && HasPage(pages, x) then v else Cell(m, x, b)
  {
    if pages != [] {
      var init := pages[..|pages| - 1];
      var y := pages[|pages| - 1].id;
      SetColumnCells(m, init, a, v, x, b);
      HasPageSnoc(pages, x);
      CellUpdate(SetColumn(m, init, a, v), y, a, v, x, b);
    }
  }

  lemma CellUpdate(m: Matrix, y: nat, a: Action, v: bool, x: nat, b: Action)
    ensures Cell(m[(y, a) := v], x, b) == if x == y && b == a then v else Cell(m, x, b)
  {
  }

  lemma HasPageSnoc(pages: seq<Page>, x: nat)
    requires pages != []
    ensures HasPage(pages, x) <==> HasPage(pages[..|pages| - 1], x) || pages[|pages| - 1].id == x
  {
    var init := pages[..|pages| - 1];
    if HasPage(pages, x) && pages[|pages| - 1].id != x {
      var i :| 0 <= i < |pages| && pages[i].id == x;
      assert init[i].id == x;
    }
    if HasPage(init, x) {
      var i :| 0 <= i < |init| && init[i].id == x;
      assert pages[i].id == x;
    }
  }

  /** Toggling one cell twice gives back every cell. */
  lemma ToggleTwice(m: Matrix, page: nat, a: Action, x: nat, b: Action)
    ensures Cell(Toggle(Toggle(m, page, a), page, a), x, b) == Cell(m, x, b)
  {
  }

  /** After "select all" on a non-empty page list, the column is fully selected
      exactly when it was not before; every other column is unchanged. */
  lemma SelectAllFlips(m: Matrix, pages: seq<Page>, a: Action)
    requires |pages| > 0
    ensures var m' := SetColumn(m, pages, a, !AllChecked(m, pages, a));
      && AllChecked(m', pages, a) == !AllChecked(m, pages, a)
      && forall x, b :: b != a ==> Cell(m', x, b) == Cell(m, x, b)
  {
    var v := !AllChecked(m, pages, a);
    var m' := SetColumn(m, pages, a, v);
    forall i | 0 <= i < |pages| ensures Cell(m', pages[i].id, a) == v {
      SetColumnCells(m, pages, a, v, pages[i].id, a);
    }
    forall x, b | b != a ensures Cell(m', x, b) == Cell(m, x, b) {
      SetColumnCells(m, pages, a, v, x, b);
    }
    assert Cell(m', pages[0].id, a) == v;
  }

  /** "Select all" flips the header box of its column on a non-empty page list, and
      leaves it unticked on an empty one. */
  lemma SelectAllTogglesHeader(m: Matrix, pages: seq<Page>, a: Action)
    ensures var m' := SetColumn(m, pages, a, !AllChecked(m, pages, a));
      && (|pages| > 0 ==> FullySelected(m', pages, a) == !FullySelected(m, pages, a))
      && (|pages| == 0 ==> !FullySelected(m', pages, a))
  {
    if |pages| > 0 {
      SelectAllFlips(m, pages, a);
    }
  }

  // ---------------------------------------------------------------------------
  // Saving
  // ---------------------------------------------------------------------------

  datatype SaveItem = SaveItem(pageId: nat, subModuleId: nat, add: bool, edit: bool, view: bool,
                               delete: bool, printAllowed: bool, download: bool)

  datatype SavePayload = SavePayload(userRoleId: nat, page: seq<SaveItem>)

  datatype SaveError = NoEditPermission | NoRoleSelected

  /** One page's item: `permissions[p.id]?.add || false`, and so on. */
  function Item(m: Matrix, p: Page): SaveItem {
    SaveItem(p.id, p.subModuleId, Cell(m, p.id, Add), Cell(m, p.id, Edit), Cell(m, p.id, View),
             Cell(m, p.id, Delete), Cell(m, p.id, Print), Cell(m, p.id, Download))
  }

  /** One item per page, in page order. */
  function Items(m: Matrix, pages: seq<Page>): (items: seq<SaveItem>)
    ensures |items| == |pages|
    ensures forall i :: 0 <= i < |pages| ==>
              && items[i].pageId == pages[i].id && items[i].subModuleId == pages[i].subModuleId
              && items[i].add == Cell(m, pages[i].id, Add) && items[i].edit == Cell(m, pages[i].id, Edit)
              && items[i].view == Cell(m, pages[i].id, View) && items[i].delete == Cell(m, pages[i].id, Delete)
              && items[i].printAllowed == Cell(m, pages[i].id, Print)
              && items[i].download == Cell(m, pages[i].id, Download)
  {
    seq(|pages|, i requires 0 <= i < |pages| => Item(m, pages[i]))
  }

  /** `handleSave`: refused without `isEdit`, then without a role; otherwise one item
      per page, in page order, carrying the page's six cells. */
  function Save(perms: Permissions, selectedRole: nat, pages: seq<Page>, m: Matrix): (r: Result<SavePayload, SaveError>)
    ensures !perms.isEdit ==> r == Err(NoEditPermission)
    ensures perms.isEdit && selectedRole == 0 ==> r == Err(NoRoleSelected)
    ensures perms.isEdit && selectedRole != 0 ==> r == Ok(SavePayload(selectedRole, Items(m, pages)))
  {
    if !perms.isEdit then Err(NoEditPermission)
    else if selectedRole == 0 then Err(NoRoleSelected)
    else Ok(SavePayload(selectedRole, Items(m, pages)))
  }

  /** A saved item read back as a permission record, with lower-case spellings. */
  function AsRecord(it: SaveItem): (r: PermRecord)
    ensures Pid(r) == it.pageId
  {
    PermRecord(Some(it.pageId), None, None,
      map[(Add, Lower) := it.add, (Edit, Lower) := it.edit, (View, Lower) := it.view,
          (Delete, Lower) := it.delete, (Print, Lower) := it.printAllowed, (Download, Lower) := it.download])
  }

  function Records(items: seq<SaveItem>): (recs: seq<PermRecord>)
    ensures |recs| == |items| && forall i :: 0 <= i < |items| ==> recs[i] == AsRecord(items[i])
  {
    seq(|items|, i requires 0 <= i < |items| => AsRecord(items[i]))
  }

  /** Each flag of a saved item reads back as the cell it was taken from. */
  lemma ItemFlags(m: Matrix, p: Page, a: Action)
    ensures Flag(AsRecord(Item(m, p)), a) == Cell(m, p.id, a)
  {
    var r := AsRecord(Item(m, p));
    FlagSpellings(r, a);
    match a
    case Add =>
    case Edit =>
    case View =>
    case Delete =>
    case Print =>
    case Download =>
  }

  /** Saving the matrix and loading the saved items back gives every listed page with
      a non-zero id the cells it had. */
  lemma SaveLoadRoundTrip(pages: seq<Page>, m: Matrix, x: nat, a: Action)
    requires HasPage(pages, x) && x != 0
    ensures Cell(RoleMatrix(pages, Records(Items(m, pages))), x, a) == Cell(m, x, a)
  {
    var recs := Records(Items(m, pages));
    var k :| 0 <= k < |pages| && pages[k].id == x;
    var last := LastWith(recs, x, k);
    assert recs[last] == AsRecord(Item(m, pages[last]));
    ItemFlags(m, pages[last], a);
    OverwriteLast(Blank(pages), recs, last, a);
  }

  /** The last position at or after `k` whose record names `x`. */
  lemma LastWith(recs: seq<PermRecord>, x: nat, k: nat) returns (last: nat)
    requires k < |recs| && Pid(recs[k]) == x
    ensures last < |recs| && Pid(recs[last]) == x
    ensures forall j :: last < j < |recs| ==> Pid(recs[j]) != x
    decreases |recs| - k
  {
    if exists j :: k < j < |recs| && Pid(recs[j]) == x {
      var j :| k < j < |recs| && Pid(recs[j]) == x;
      last := LastWith(recs, x, j);
    } else {
      last := k;
    }
  }

  // ---------------------------------------------------------------------------
  // The page
  // ---------------------------------------------------------------------------

  class RolePermissionsPage {
    var pages: seq<Page>
    var selectedRole: nat
    var cells: Matrix
    var pagePermissions: Permissions

    constructor (pages: seq<Page>, pagePermissions: Permissions)
      ensures this.pages == pages && this.pagePermissions == pagePermissions
      ensures selectedRole == 0 && cells == map[]
    {
      this.pages := pages;
      this.pagePermissions := pagePermissions;
      selectedRole := 0;
      cells := map[];
    }

    /** `handleRoleChange(roleId)`: the matrix is cleared; for a non-zero role the
        response (`None` when the request fails) is read into it. */
    method HandleRoleChange(roleId: nat, response: Option<Raw>)
      modifies this
      ensures selectedRole == roleId && pages == old(pages) && pagePermissions == old(pagePermissions)
      ensures cells == if roleId == 0 || response.None? then map[] else RoleMatrix(pages, PermsArray(response.value))
    {
      selectedRole := roleId;
      cells := map[];
      if roleId == 0 || response.None? {
        return;
      }
      var recs := PermsArray(response.value);
      var mapped: Matrix := map[];
      for i := 0 to |pages|
        invariant mapped == Blank(pages[..i])
      {
        assert pages[..i + 1][..i] == pages[..i];
        mapped := WriteRow(mapped, pages[i].id, _ => false);
      }
      assert pages[..|pages|] == pages;
      ghost var blank := mapped;
      for i := 0 to |recs|
        invariant mapped == Overwrite(blank, recs[..i])
      {
        assert recs[..i + 1][..i] == recs[..i];
        var r := recs[i];
        var pid := Pid(r);
        if pid != 0 {
          mapped := WriteRow(mapped, pid, a => Flag(r, a));
        }
      }
      assert recs[..|recs|] == recs;
      cells := mapped;
    }

    /** `togglePermission(pageId, action)`: refused unless the page permits the action. */
    method TogglePermission(pageId: nat, a: Action)
      modifies this
      ensures pages == old(pages) && selectedRole == old(selectedRole) && pagePermissions == old(pagePermissions)
      ensures cells == if Allows(pagePermissions, a) then Toggle(old(cells), pageId, a) else old(cells)
    {
      if !Allows(pagePermissions, a) {
        return;
      }
      cells := Toggle(cells, pageId, a);
    }

    /** `toggleSelectAll(action)`: refused unless the page permits the action; else
        every listed page's cell of the column is set to the opposite of "all were
        checked". */
    method ToggleSelectAll(a: Action)
      modifies this
      ensures pages == old(pages) && selectedRole == old(selectedRole) && pagePermissions == old(pagePermissions)
      ensures cells == if Allows(pagePermissions, a)
                       then SetColumn(old(cells), pages, a, !AllChecked(old(cells), pages, a))
                       else old(cells)
      ensures Allows(pagePermissions, a) && |pages| > 0 ==>
                IsActionFullySelected(a) == !old(IsActionFullySelected(a))
    {
      if !Allows(pagePermissions, a) {
        return;
      }
      SelectAllTogglesHeader(cells, pages, a);
      var allChecked := AllChecked(cells, pages, a);
      var updated := cells;
      for i := 0 to |pages|
        invariant updated == SetColumn(cells, pages[..i], a, !allChecked)
      {
        assert pages[..i + 1][..i] == pages[..i];
        updated := updated[(pages[i].id, a) := !allChecked];
      }
      assert pages[..|pages|] == pages;
      cells := updated;
    }

    /** `isActionFullySelected(action)`: ticked exactly when there is a page and every
        page's cell of the column is checked. */
    function IsActionFullySelected(a: Action): (full: bool)
      reads this
      ensures full ==> |pages| > 0 && forall i :: 0 <= i < |pages| ==> Cell(cells, pages[i].id, a)
      ensures !full && |pages| > 0 ==> exists i :: 0 <= i < |pages| && !Cell(cells, pages[i].id, a)
    {
      FullySelected(cells, pages, a)
    }
  }
}
