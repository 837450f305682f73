/** The modules page and the sub-modules page.  The two are the same component over
    differently named fields (`moduleName`/`moduleCode` and
    `subModuleName`/`subModuleCode`): an entry with a name, a code, an active flag
    and a priority is checked, cleaned and sent as a create or an update, each gated
    by the page permissions, and an entry is deleted only with `isDelete`. */
module ModulesPages {
  import opened Common

  /** The form.  `id` 0 stands for `null`; `priority` is `None` for `NaN`. */
  datatype EntryForm = EntryForm(id: nat, name: string, code: string, status: bool, priority: Option<int>)

  const InitialForm := EntryForm(0, "", "", true, Some(1))

  /** The request body (`cleanData`). */
  datatype EntryPayload = EntryPayload(id: nat, name: string, code: string, status: bool, priority: int)

  datatype Request = Update(editingId: nat, payload: EntryPayload) | CreateEntry(payload: EntryPayload)

  datatype EntryError = NameAndCodeRequired | NoEditPermission | NoAddPermission

  /** `cleanData`: name and code trimmed, the priority made positive. */
  function Payload(f: EntryForm): EntryPayload {
    EntryPayload(f.id, Trim(f.name), Trim(f.code), f.status, PositivePriority(f.priority))
  }

  /** `handleSubmit`: name and code first; then the permission the mode needs, an
      update when an entry is being edited (`editingId` non-zero). */
  function Submit(f: EntryForm, editingId: nat, perms: Permissions): (r: Result<Request, EntryError>)
    ensures IsBlank(f.name) || IsBlank(f.code) ==> r == Err(NameAndCodeRequired)
    ensures r.Ok? <==>
      !IsBlank(f.name) && !IsBlank(f.code) && (if editingId != 0 then perms.isEdit else perms.isAdd)
    ensures r.Ok? && editingId != 0 ==> r.value == Update(editingId, Payload(f))
    ensures r.Ok? && editingId == 0 ==> r.value == CreateEntry(Payload(f))
  {
    if IsBlank(f.name) || IsBlank(f.code) then Err(NameAndCodeRequired)
    else if editingId != 0 then
      if !perms.isEdit then Err(NoEditPermission) else Ok(Update(editingId, Payload(f)))
    else
      if !perms.isAdd then Err(NoAddPermission) else Ok(CreateEntry(Payload(f)))
  }

  /** A permission refusal is reported only for a form that passed the checks, and
      only for the permission its mode needs. */
  lemma RefusalAfterValidation(f: EntryForm, editingId: nat, perms: Permissions)
    ensures Submit(f, editingId, perms) == Err(NoEditPermission) <==>
      !IsBlank(f.name) && !IsBlank(f.code) && editingId != 0 && !perms.isEdit
    ensures Submit(f, editingId, perms) == Err(NoAddPermission) <==>
      !IsBlank(f.name) && !IsBlank(f.code) && editingId == 0 && !perms.isAdd
  {
  }

  /** An accepted body has a non-empty name and code without white space at either
      end, and a positive priority. */
  lemma AcceptedPayloadClean(f: EntryForm, editingId: nat, perms: Permissions)
    requires Submit(f, editingId, perms).Ok?
    ensures var p := Submit(f, editingId, perms).value.payload;
      && p.name != "" && p.code != "" && Trimmed(p.name) && Trimmed(p.code) && p.priority >= 1
  {
    TrimFacts(f.name);
    TrimFacts(f.code);
  }

  /** The record the server returns for one entry; `None` for a missing property. */
  datatype EntryData = EntryData(id: nat, name: Option<string>, code: Option<string>,
                                 status: Option<bool>, priority: Option<int>)

  /** The form `handleEdit` fills in: texts default to "", the flag to active and the
      priority to 1. */
  function EditForm(d: EntryData): (f: EntryForm)
    ensures f.id == d.id
    ensures d.priority.None? ==> f.priority == Some(1)
    ensures d.priority.Some? ==> f.priority == d.priority
    ensures d.status.None? ==> f.status
    ensures d.status.Some? ==> f.status == d.status.value
    ensures f.name == OrEmpty(d.name) && f.code == OrEmpty(d.code)
    ensures d.name.None? || d.code.None? ==> IsBlank(f.name) || IsBlank(f.code)
  {
    EntryForm(d.id, OrEmpty(d.name), OrEmpty(d.code), if d.status.Some? then d.status.value else true,
              Some(if d.priority.Some? then d.priority.value else 1))
  }

  /** A record with every property missing loads as the initial form with its id. */
  lemma MissingRecordForm(id: nat)
    ensures EditForm(EntryData(id, None, None, None, None)) == InitialForm.(id := id)
  {
  }

  /** What the server stores for a body it was sent. */
  function Stored(p: EntryPayload): EntryData {
    EntryData(p.id, Some(p.name), Some(p.code), Some(p.status), Some(p.priority))
  }

  /** Cleaning is stable: an entry that was saved, loaded back for editing and saved
      again unchanged is sent with the body it was first sent with. */
  lemma SaveLoadSave(f: EntryForm, editingId: nat, perms: Permissions, id: nat)
    requires Submit(f, editingId, perms).Ok? && id != 0 && perms.isEdit
    ensures var p := Submit(f, editingId, perms).value.payload.(id := id);
      Submit(EditForm(Stored(p)), id, perms) == Ok(Update(id, p))
  {
    TrimIdempotent(f.name);
    TrimIdempotent(f.code);
  }

  class EntriesPage {
    var form: EntryForm
    var editingId: nat
    var isModalOpen: bool
    var confirmDeleteId: Option<nat>
    var permissions: Permissions

    constructor (permissions: Permissions)
      ensures form == InitialForm && editingId == 0 && !isModalOpen && confirmDeleteId.None?
      ensures this.permissions == permissions
    {
      form := InitialForm;
      editingId := 0;
      isModalOpen := false;
      confirmDeleteId := None;
      this.permissions := permissions;
    }

    /** The create button: shown only with `isAdd`, it opens the dialog on whatever
        the form holds. */
    method OpenCreate()
      modifies this
      ensures form == old(form) && editingId == old(editingId) && confirmDeleteId == old(confirmDeleteId)
      ensures permissions == old(permissions)
      ensures isModalOpen == (old(isModalOpen) || permissions.isAdd)
    {
      if permissions.isAdd {
        isModalOpen := true;
      }
    }

    /** `resetForm`. */
    method ResetForm()
      modifies this
      ensures form == InitialForm && editingId == 0 && !isModalOpen
      ensures confirmDeleteId == old(confirmDeleteId) && permissions == old(permissions)
    {
      form := InitialForm;
      editingId := 0;
      isModalOpen := false;
    }

    /** `handleSubmit`; `saved` is whether the request succeeded, after which the form
        is reset.  A refused permission leaves the dialog as it is. */
    method HandleSubmit(saved: bool) returns (request: Result<Request, EntryError>)
      modifies this
      ensures request == Submit(old(form), old(editingId), old(permissions))
      ensures permissions == old(permissions) && confirmDeleteId == old(confirmDeleteId)
      ensures request.Ok? && saved ==> form == InitialForm && editingId == 0 && !isModalOpen
      ensures !(request.Ok? && saved) ==>
                form == old(form) && editingId == old(editingId) && isModalOpen == old(isModalOpen)
    {
      if IsBlank(form.name) || IsBlank(form.code) {
        return Err(NameAndCodeRequired);
      }
      var cleanData := Payload(form);
      if editingId != 0 {
        if !permissions.isEdit {
          return Err(NoEditPermission);
        }
        request := Ok(Update(editingId, cleanData));
      } else {
        if !permissions.isAdd {
          return Err(NoAddPermission);
        }
        request := Ok(CreateEntry(cleanData));
      }
      if saved {
        ResetForm();
      }
    }

    /** `handleEdit(id)`: refused without `isEdit`; `response` is the loaded record,
        `None` when the request failed or returned nothing. */
    method HandleEdit(response: Option<EntryData>)
      modifies this
      ensures permissions == old(permissions) && confirmDeleteId == old(confirmDeleteId)
      ensures permissions.isEdit && response.Some? && response.value.id != 0 ==>
                form == EditForm(response.value) && editingId == response.value.id && isModalOpen
      ensures !(permissions.isEdit && response.Some? && response.value.id != 0) ==>
                form == old(form) && editingId == old(editingId) && isModalOpen == old(isModalOpen)
    {
      if !permissions.isEdit {
        return;
      }
      if response.None? || response.value.id == 0 {
        return;
      }
      var data := response.value;
      form := EditForm(data);
      editingId := data.id;
      isModalOpen := true;
    }

    /** `handleDeleteRequest(id)`: asks for confirmation. */
    method HandleDeleteRequest(id: nat)
      modifies this
      ensures confirmDeleteId == Some(id)
      ensures form == old(form) && editingId == old(editingId) && isModalOpen == old(isModalOpen)
      ensures permissions == old(permissions)
    {
      confirmDeleteId := Some(id);
    }

    /** `handleDelete(id)`: the delete request, `None` without `isDelete`; `deleted`
        is whether the request succeeded, after which the confirmation closes. */
    method HandleDelete(id: nat, deleted: bool) returns (request: Option<nat>)
      modifies this
      ensures request == (if permissions.isDelete then Some(id) else None)
      ensures form == old(form) && editingId == old(editingId) && isModalOpen == old(isModalOpen)
      ensures permissions == old(permissions)
      ensures confirmDeleteId == (if permissions.isDelete && deleted then None else old(confirmDeleteId))
    {
      if !permissions.isDelete {
        return None;
      }
      request := Some(id);
      if deleted {
        confirmDeleteId := None;
      }
    }
  }
}
