/** The user-role assignment page: a user is given a set of roles chosen by toggling
    check boxes, and the assignment is sent as one request. */
module UserRoles {
  import opened Common

  /** The form.  `userId` 0 stands for no user chosen. */
  datatype UserRoleForm = UserRoleForm(id: nat, userId: nat, roleIds: seq<nat>, isActive: bool)

  const EmptyForm := UserRoleForm(0, 0, [], true)

  /** `filter(id => id !== r)`. */
  function RemoveAll(ids: seq<nat>, r: nat): (out: seq<nat>)
    ensures forall x :: x in out <==> x in ids && x != r
    ensures r !in ids ==> out == ids
    ensures |ids| == 1 ==> out == if ids[0] == r then [] else ids
  {
    if ids == [] then []
    else (if ids[0] == r then [] else [ids[0]]) + RemoveAll(ids[1..], r)
  }

  /** `toggleRoleSelection(roleId)`: a selected role is removed (every copy of it),
      an unselected one is appended. */
  function ToggleRole(ids: seq<nat>, r: nat): (out: seq<nat>)
    ensures r in out <==> r !in ids
    ensures forall x :: x != r ==> (x in out <==> x in ids)
    ensures r !in ids ==> |out| == |ids| + 1 && out[..|ids|] == ids && out[|ids|] == r
    ensures r in ids ==> out == RemoveAll(ids, r)
  {
    if r in ids then RemoveAll(ids, r)
    else
      assert (ids + [r])[..|ids|] == ids;
      ids + [r]
  }

  /** Removal works piece by piece: the other roles keep their order and their
      repeats, as `filter` keeps them. */
  lemma {:induction false} RemoveAllConcat(a: seq<nat>, b: seq<nat>, r: nat)
    ensures RemoveAll(a + b, r) == RemoveAll(a, r) + RemoveAll(b, r)
  {
    if a == [] {
      assert a + b == b;
    } else {
      assert (a + b)[0] == a[0] && (a + b)[1..] == a[1..] + b;
      RemoveAllConcat(a[1..], b, r);
    }
  }

  /** Toggling a role that was not selected twice gives back the list. */
  lemma ToggleTwiceAbsent(ids: seq<nat>, r: nat)
    requires r !in ids
    ensures ToggleRole(ToggleRole(ids, r), r) == ids
  {
    assert ids + [r] == ToggleRole(ids, r);
    RemoveLast(ids, r);
  }

  lemma {:induction false} RemoveLast(ids: seq<nat>, r: nat)
    requires r !in ids
    ensures RemoveAll(ids + [r], r) == ids
  {
    if ids == [] {
      assert [r][1..] == [];
    } else {
      assert (ids + [r])[1..] == ids[1..] + [r];
      RemoveLast(ids[1..], r);
    }
  }

  /** On a list without repeats, toggling keeps it without repeats. */
  lemma {:induction false} ToggleKeepsDistinct(ids: seq<nat>, r: nat)
    requires Distinct(ids)
    ensures Distinct(ToggleRole(ids, r))
  {
    if r in ids {
      RemoveAllDistinct(ids, r);
    }
  }

  lemma {:induction false} RemoveAllDistinct(ids: seq<nat>, r: nat)
    requires Distinct(ids)
    ensures Distinct(RemoveAll(ids, r))
  {
    if ids != [] {
      var tail := ids[1..];
      assert Distinct(tail) by {
        forall i, j | 0 <= i < j < |tail| ensures tail[i] != tail[j] {
          assert tail[i] == ids[i + 1] && tail[j] == ids[j + 1];
        }
      }
      RemoveAllDistinct(tail, r);
      assert ids[0] !in tail;
      assert ids[0] !in RemoveAll(tail, r);
      var head: seq<nat> := if ids[0] == r then [] else [ids[0]];
      var out := head + RemoveAll(tail, r);
      forall i, j | 0 <= i < j < |out| ensures out[i] != out[j] {
        if head != [] && i == 0 {
          assert out[j] in RemoveAll(tail, r);
        }
      }
    }
  }

  datatype UserRoleError = NoAddPermission | NoEditPermission | UserRequired | RoleRequired

  /** The request body: `{userId, RoleId}`.  The same create request serves both a new
      assignment and an edit. */
  datatype CleanData = CleanData(userId: nat, roleIds: seq<nat>)

  /** The permission the mode needs: `isAdd` for a new assignment, `isEdit` while
      editing. */
  predicate ModeAllowed(perms: Permissions, editingId: nat) {
    if editingId == 0 then perms.isAdd else perms.isEdit
  }

  /** The guards of `handleSubmit` in their order, then the request body. */
  function Submit(perms: Permissions, editingId: nat, f: UserRoleForm): (r: Result<CleanData, UserRoleError>)
    ensures editingId == 0 && !perms.isAdd ==> r == Err(NoAddPermission)
    ensures editingId != 0 && !perms.isEdit ==> r == Err(NoEditPermission)
    ensures ModeAllowed(perms, editingId) && f.userId == 0 ==> r == Err(UserRequired)
    ensures ModeAllowed(perms, editingId) && f.userId != 0 && |f.roleIds| == 0 ==> r == Err(RoleRequired)
    ensures r.Ok? <==> ModeAllowed(perms, editingId) && f.userId != 0 && |f.roleIds| > 0
    ensures r.Ok? ==> r.value == CleanData(f.userId, f.roleIds)
  {
    if !perms.isAdd && editingId == 0 then Err(NoAddPermission)
    else if !perms.isEdit && editingId != 0 then Err(NoEditPermission)
    else if f.userId == 0 then Err(UserRequired)
    else if |f.roleIds| == 0 then Err(RoleRequired)
    else Ok(CleanData(f.userId, f.roleIds))
  }

  /** Permissions are checked before the form: a caller without the permission its
      mode needs hears about that whatever the form holds. */
  lemma PermissionFirst(perms: Permissions, editingId: nat, f: UserRoleForm)
    ensures editingId == 0 && !perms.isAdd ==> Submit(perms, editingId, f) == Err(NoAddPermission)
    ensures editingId != 0 && !perms.isEdit ==> Submit(perms, editingId, f) == Err(NoEditPermission)
    ensures Submit(perms, editingId, f) in {Err(UserRequired), Err(RoleRequired)} ==> ModeAllowed(perms, editingId)
  {
  }

  /** What the server sends for one assignment; `roles` is `None` when missing. */
  datatype UserRoleData = UserRoleData(id: nat, userId: nat, roles: Option<seq<nat>>, active: Option<bool>)

  class UserRolesPage {
    var form: UserRoleForm
    var editingId: nat
    var isModalOpen: bool
    var permissions: Permissions

    constructor (permissions: Permissions)
      ensures form == EmptyForm && editingId == 0 && !isModalOpen && this.permissions == permissions
    {
      form := EmptyForm;
      editingId := 0;
      isModalOpen := false;
      this.permissions := permissions;
    }

    method ToggleRoleSelection(r: nat)
      modifies this
      ensures form == old(form).(roleIds := ToggleRole(old(form.roleIds), r))
      ensures editingId == old(editingId) && isModalOpen == old(isModalOpen) && permissions == old(permissions)
    {
      form := form.(roleIds := ToggleRole(form.roleIds, r));
    }

    /** `handleSubmit`; `saved` is whether the request succeeded.  A successful save
        resets the form, forgets the edited id and closes the dialog; anything else
        leaves the page as it was. */
    method HandleSubmit(saved: bool) returns (request: Result<CleanData, UserRoleError>)
      modifies this
      ensures request == Submit(permissions, old(editingId), old(form))
      ensures permissions == old(permissions)
      ensures request.Ok? && saved ==> form == EmptyForm && editingId == 0 && !isModalOpen
      ensures !(request.Ok? && saved) ==>
                form == old(form) && editingId == old(editingId) && isModalOpen == old(isModalOpen)
    {
      request := Submit(permissions, editingId, form);
      if request.Ok? && saved {
        form := EmptyForm;
        editingId := 0;
        isModalOpen := false;
      }
    }

    /** `handleEdit(id)`: refused without `isEdit`; `response` is the loaded record,
        `None` when the request failed or returned nothing. */
    method HandleEdit(response: Option<UserRoleData>)
      modifies this
      ensures permissions == old(permissions)
      ensures permissions.isEdit && response.Some? && response.value.userId != 0 ==>
        && form == UserRoleForm(0, response.value.userId,
                                if response.value.roles.Some? then response.value.roles.value else [],
                                if response.value.active.Some? then response.value.active.value else true)
        && editingId == response.value.id && isModalOpen
      ensures !(permissions.isEdit && response.Some? && response.value.userId != 0) ==>
        form == old(form) && editingId == old(editingId) && isModalOpen == old(isModalOpen)
    {
      if !permissions.isEdit {
        return;
      }
      if response.None? || response.value.userId == 0 {
        return;
      }
      var data := response.value;
      form := UserRoleForm(0, data.userId,
                           if data.roles.Some? then data.roles.value else [],
                           if data.active.Some? then data.active.value else true);
      editingId := data.id;
      isModalOpen := true;
    }
  }
}
