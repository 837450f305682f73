/** The sidebar: a tree of modules, sub-menus and pages, of which one module and one
    sub-menu are expanded.  Loading the tree expands the module and sub-menu of the
    first page whose URL is the current path; clicking a module or a sub-menu heading
    flips it open or shut. */
module Sidebar {
  import opened Common

  datatype SidebarPage = SidebarPage(name: string, pageUrl: string)

  /** A sub-menu; `pages` is `None` when the server leaves it out. */
  datatype SubMenu = SubMenu(name: string, pages: Option<seq<SidebarPage>>)

  /** A module; `subMenus` is `None` when the server leaves it out. */
  datatype SidebarModule = SidebarModule(name: string, subMenus: Option<seq<SubMenu>>)

  /** `sub.pages || []`. */
  function PagesOf(sub: SubMenu): seq<SidebarPage> {
    if sub.pages.Some? then sub.pages.value else []
  }

  /** `mod.subMenus || []`. */
  function SubMenusOf(m: SidebarModule): seq<SubMenu> {
    if m.subMenus.Some? then m.subMenus.value else []
  }

  /** Some page of the list has the URL `path`. */
  predicate HasPage(pages: seq<SidebarPage>, path: string) {
    exists k :: 0 <= k < |pages| && pages[k].pageUrl == path
  }

  /** The name of the first sub-menu with a page at `path`. */
  function FirstSubMenu(subs: seq<SubMenu>, path: string): Option<string> {
    if subs == [] then None
    else if HasPage(PagesOf(subs[0]), path) then Some(subs[0].name)
    else FirstSubMenu(subs[1..], path)
  }

  /** The module and sub-menu names of the first page at `path`, searching modules,
      then their sub-menus, then their pages, each in order. */
  function FirstMatch(mods: seq<SidebarModule>, path: string): Option<(string, string)> {
    if mods == [] then None
    else
      var s := FirstSubMenu(SubMenusOf(mods[0]), path);
      if s.Some? then Some((mods[0].name, s.value)) else FirstMatch(mods[1..], path)
  }

  /** Sub-menu `j` of module `i` holds a page at `path`. */
  predicate MatchAt(mods: seq<SidebarModule>, path: string, i: nat, j: nat) {
    i < |mods| && j < |SubMenusOf(mods[i])| && HasPage(PagesOf(SubMenusOf(mods[i])[j]), path)
  }

  /** `(i, j)` is the first match: no earlier module has one, and no earlier sub-menu
      of module `i`. */
  ghost predicate FirstAt(mods: seq<SidebarModule>, path: string, i: nat, j: nat) {
    && MatchAt(mods, path, i, j)
    && (forall i': nat, j': nat :: i' < i ==> !MatchAt(mods, path, i', j'))
    && (forall j': nat :: j' < j ==> !MatchAt(mods, path, i, j'))
  }

  lemma {:induction false} FirstSubMenuFound(subs: seq<SubMenu>, path: string)
    ensures FirstSubMenu(subs, path).None? <==> forall j :: 0 <= j < |subs| ==> !HasPage(PagesOf(subs[j]), path)
    ensures FirstSubMenu(subs, path).Some? ==>
      exists j :: 0 <= j < |subs| && HasPage(PagesOf(subs[j]), path) && FirstSubMenu(subs, path) == Some(subs[j].name)
        && forall j' :: 0 <= j' < j ==> !HasPage(PagesOf(subs[j']), path)
  {
    if subs != [] && !HasPage(PagesOf(subs[0]), path) {
      FirstSubMenuFound(subs[1..], path);
      if FirstSubMenu(subs, path).Some? {
        var j :| 0 <= j < |subs[1..]| && HasPage(PagesOf(subs[1..][j]), path)
          && FirstSubMenu(subs[1..], path) == Some(subs[1..][j].name)
          && forall j' :: 0 <= j' < j ==> !HasPage(PagesOf(subs[1..][j']), path);
        assert HasPage(PagesOf(subs[j + 1]), path);
        forall j' | 0 <= j' < j + 1 ensures !HasPage(PagesOf(subs[j']), path) {
          if j' > 0 {
            assert subs[j'] == subs[1..][j' - 1];
          }
        }
      } else {
        forall j | 0 <= j < |subs| ensures !HasPage(PagesOf(subs[j]), path) {
          if j > 0 {
            assert subs[j] == subs[1..][j - 1];
          }
        }
      }
    }
  }

  lemma MatchAtTail(mods: seq<SidebarModule>, path: string, i: nat, j: nat)
    requires mods != []
    ensures MatchAt(mods, path, i + 1, j) <==> MatchAt(mods[1..], path, i, j)
  {
    if i + 1 < |mods| {
      assert mods[i + 1] == mods[1..][i];
    }
  }

  /** With no match in the first module, a match anywhere is a match in the others. */
  lemma NoMatchShift(mods: seq<SidebarModule>, path: string)
    requires mods != [] && forall j: nat :: !MatchAt(mods, path, 0, j)
    ensures (forall i: nat, j: nat :: !MatchAt(mods, path, i, j)) <==> (forall i: nat, j: nat :: !MatchAt(mods[1..], path, i, j))
  {
    if forall i: nat, j: nat :: !MatchAt(mods[1..], path, i, j) {
      forall i: nat, j: nat ensures !MatchAt(mods, path, i, j) {
        if i > 0 {
          MatchAtTail(mods, path, i - 1, j);
        }
      }
    } else {
      var i: nat, j: nat :| MatchAt(mods[1..], path, i, j);
      MatchAtTail(mods, path, i, j);
    }
  }

  /** With no match in the first module, the first match of the others is the first
      match. */
  lemma ShiftFirstAt(mods: seq<SidebarModule>, path: string, i: nat, j: nat)
    requires mods != [] && forall j': nat :: !MatchAt(mods, path, 0, j')
    requires FirstAt(mods[1..], path, i, j)
    ensures FirstAt(mods, path, i + 1, j)
  {
    var k := i + 1;
    MatchAtTail(mods, path, i, j);
    forall i': nat, j': nat | i' < k ensures !MatchAt(mods, path, i', j') {
      if i' > 0 {
        MatchAtTail(mods, path, i' - 1, j');
      }
    }
    forall j': nat | j' < j ensures !MatchAt(mods, path, k, j') {
      MatchAtTail(mods, path, i, j');
    }
  }

  /** `FirstMatch` finds nothing exactly when no page is at `path`, and otherwise
      names the module and sub-menu of the first match. */
  lemma {:induction false} FirstMatchFound(mods: seq<SidebarModule>, path: string)
    ensures FirstMatch(mods, path).None? <==> forall i: nat, j: nat :: !MatchAt(mods, path, i, j)
    ensures FirstMatch(mods, path).Some? ==>
      exists i: nat, j: nat :: FirstAt(mods, path, i, j)
        && FirstMatch(mods, path) == Some((mods[i].name, SubMenusOf(mods[i])[j].name))
  {
    if mods != [] {
      var subs := SubMenusOf(mods[0]);
      FirstSubMenuFound(subs, path);
      if FirstSubMenu(subs, path).Some? {
        var j :| 0 <= j < |subs| && HasPage(PagesOf(subs[j]), path) && FirstSubMenu(subs, path) == Some(subs[j].name)
          && forall j' :: 0 <= j' < j ==> !HasPage(PagesOf(subs[j']), path);
        assert MatchAt(mods, path, 0, j);
        assert FirstAt(mods, path, 0, j);
      } else {
        FirstMatchFound(mods[1..], path);
        assert forall j: nat :: !MatchAt(mods, path, 0, j);
        NoMatchShift(mods, path);
        if FirstMatch(mods, path).Some? {
          var i: nat, j: nat :| FirstAt(mods[1..], path, i, j)
            && FirstMatch(mods[1..], path) == Some((mods[1..][i].name, SubMenusOf(mods[1..][i])[j].name));
          ShiftFirstAt(mods, path, i, j);
          assert mods[i + 1] == mods[1..][i];
        }
      }
    }
  }

  /** The auto-expand search of the loading effect: the three nested loops, which
      stop at the first page whose URL is `path`. */
  method FindCurrentPage(raw: seq<SidebarModule>, path: string) returns (found: Option<(string, string)>)
    ensures found == FirstMatch(raw, path)
  {
    var i := 0;
    while i < |raw|
      invariant 0 <= i <= |raw|
      invariant FirstMatch(raw, path) == FirstMatch(raw[i..], path)
    {
      var subs := SubMenusOf(raw[i]);
      var j := 0;
      while j < |subs|
        invariant 0 <= j <= |subs|
        invariant FirstSubMenu(subs, path) == FirstSubMenu(subs[j..], path)
      {
        var pages := PagesOf(subs[j]);
        var k := 0;
        while k < |pages|
          invariant 0 <= k <= |pages|
          invariant forall k' :: 0 <= k' < k ==> pages[k'].pageUrl != path
        {
          if pages[k].pageUrl == path {
            assert HasPage(pages, path);
            assert subs[j..][0] == subs[j];
            assert raw[i..][0] == raw[i];
            return Some((raw[i].name, subs[j].name));
          }
          k := k + 1;
        }
        assert subs[j..][1..] == subs[j + 1..];
        j := j + 1;
      }
      assert raw[i..][1..] == raw[i + 1..];
      i := i + 1;
    }
    return None;
  }

  /** A click on a heading: the open name closes, any other name opens. */
  function Flip(open: Option<string>, name: string): (r: Option<string>)
    ensures r == Some(name) <==> open != Some(name)
    ensures r.None? <==> open == Some(name)
  {
    if open == Some(name) then None else Some(name)
  }

  /** Two clicks on the same heading undo each other when no other heading was
      open. */
  lemma FlipTwice(open: Option<string>, name: string)
    requires open.None? || open == Some(name)
    ensures Flip(Flip(open, name), name) == open
  {
  }

  /** The outcome of `getSidebarModules`: the request failed, or it returned a
      response whose `output` may be missing. */
  datatype Fetch = Failed | Loaded(output: Option<seq<SidebarModule>>)

  class SidebarState {
    var modules: seq<SidebarModule>
    var expandedModule: Option<string>
    var expandedSubMenu: Option<string>

    constructor ()
      ensures modules == [] && expandedModule.None? && expandedSubMenu.None?
    {
      modules := [];
      expandedModule := None;
      expandedSubMenu := None;
    }

    /** The loading effect, run for the current path: the tree is stored
        (`output || []`) and, when a page is at `path`, its module and sub-menu are
        expanded; otherwise, and when the request fails, the expansion is kept. */
    method Load(fetch: Fetch, path: string)
      modifies this
      ensures fetch.Failed? ==>
        modules == old(modules) && expandedModule == old(expandedModule) && expandedSubMenu == old(expandedSubMenu)
      ensures fetch.Loaded? ==> modules == (if fetch.output.Some? then fetch.output.value else [])
      ensures fetch.Loaded? && FirstMatch(modules, path).Some? ==>
        expandedModule == Some(FirstMatch(modules, path).value.0)
        && expandedSubMenu == Some(FirstMatch(modules, path).value.1)
      ensures fetch.Loaded? && FirstMatch(modules, path).None? ==>
        expandedModule == old(expandedModule) && expandedSubMenu == old(expandedSubMenu)
    {
      if fetch.Failed? {
        return;
      }
      var raw := if fetch.output.Some? then fetch.output.value else [];
      modules := raw;
      var found := FindCurrentPage(raw, path);
      if found.Some? {
        expandedModule := Some(found.value.0);
        expandedSubMenu := Some(found.value.1);
      }
    }

    /** `toggleModule(name)`: flips the module and always closes the sub-menu. */
    method ToggleModule(name: string)
      modifies this
      ensures expandedModule == Flip(old(expandedModule), name)
      ensures expandedSubMenu.None? && modules == old(modules)
    {
      expandedModule := if expandedModule == Some(name) then None else Some(name);
      expandedSubMenu := None;
    }

    /** `toggleSubMenu(name)`: flips the sub-menu and leaves the module alone. */
    method ToggleSubMenu(name: string)
      modifies this
      ensures expandedSubMenu == Flip(old(expandedSubMenu), name)
      ensures expandedModule == old(expandedModule) && modules == old(modules)
    {
      expandedSubMenu := if expandedSubMenu == Some(name) then None else Some(name);
    }
  }
}
