/** The account-groups page: an account group (a name, an alias, a parent group, a
    nature and a net effect) is checked, cleaned and sent as a create or an update.
    This page checks no permission. */
module AccountGroups {
  import opened Common

  /** The form.  `id` 0 stands for `null`; `parentGroupId` is `None` for `null`, and
      may hold 0 when a stored group came back with parent 0.  An empty
      `natureOfGroup` or `netEffect` is the "select" option. */
  datatype AccountGroupForm = AccountGroupForm(
    id: nat, name: string, alias: string, parentGroupId: Option<nat>,
    natureOfGroup: string, netEffect: string, isActive: bool)

  const InitialForm := AccountGroupForm(0, "", "", None, "", "", true)

  /** The request body (`cleanData`). */
  datatype AccountGroupPayload = AccountGroupPayload(
    id: nat, name: string, alias: string, natureOfGroup: string, netEffect: string,
    isActive: bool, parentGroupId: Option<nat>)

  datatype Request = Update(editingId: nat, payload: AccountGroupPayload) | CreateAccountGroup(payload: AccountGroupPayload)

  datatype AccountGroupError = NameRequired | NatureRequired | NetEffectRequired

  /** `parentGroupID || null`: no parent and parent 0 are both sent as `null`. */
  function SentParent(p: Option<nat>): (r: Option<nat>)
    ensures r.None? <==> p.None? || p.value == 0
    ensures r.Some? ==> r == p && r.value > 0
  {
    if p.Some? && p.value != 0 then p else None
  }

  /** `cleanData`: name and alias trimmed, the parent normalised. */
  function Payload(f: AccountGroupForm): AccountGroupPayload {
    AccountGroupPayload(f.id, Trim(f.name), Trim(f.alias), f.natureOfGroup, f.netEffect, f.isActive,
                        SentParent(f.parentGroupId))
  }

  /** `handleSubmit`: the name, then the nature, then the net effect; an update when
      a group is being edited (`editingId` non-zero). */
  function Submit(f: AccountGroupForm, editingId: nat): (r: Result<Request, AccountGroupError>)
    ensures IsBlank(f.name) ==> r == Err(NameRequired)
    ensures !IsBlank(f.name) && f.natureOfGroup == "" ==> r == Err(NatureRequired)
    ensures !IsBlank(f.name) && f.natureOfGroup != "" && f.netEffect == "" ==> r == Err(NetEffectRequired)
    ensures r.Ok? <==> !IsBlank(f.name) && f.natureOfGroup != "" && f.netEffect != ""
    ensures r.Ok? && editingId != 0 ==> r.value == Update(editingId, Payload(f))
    ensures r.Ok? && editingId == 0 ==> r.value == CreateAccountGroup(Payload(f))
  {
    if IsBlank(f.name) then Err(NameRequired)
    else if f.natureOfGroup == "" then Err(NatureRequired)
    else if f.netEffect == "" then Err(NetEffectRequired)
    else if editingId != 0 then Ok(Update(editingId, Payload(f)))
    else Ok(CreateAccountGroup(Payload(f)))
  }

  /** An accepted body has a non-empty name, name and alias without white space at
      either end, the nature and net effect as chosen, and no parent 0. */
  lemma AcceptedPayloadClean(f: AccountGroupForm, editingId: nat)
    requires Submit(f, editingId).Ok?
    ensures var p := Submit(f, editingId).value.payload;
      && p.name != "" && Trimmed(p.name) && Trimmed(p.alias)
      && p.natureOfGroup == f.natureOfGroup != "" && p.netEffect == f.netEffect != ""
      && p.isActive == f.isActive
      && (p.parentGroupId.None? || p.parentGroupId.value > 0)
  {
    TrimFacts(f.name);
    TrimFacts(f.alias);
  }

  /** The record the server returns for one group; `None` for a missing property. */
  datatype AccountGroupData = AccountGroupData(
    id: nat, name: Option<string>, alias: Option<string>, parentGroupId: Option<nat>,
    natureOfGroup: Option<string>, netEffect: Option<string>, isActive: Option<bool>)

  /** The form `handleEdit` fills in: texts default to "", the flag to active; the
      parent is kept as stored (`?? null`), a stored 0 included. */
  function EditForm(d: AccountGroupData): (f: AccountGroupForm)
    ensures f.id == d.id && f.parentGroupId == d.parentGroupId
    ensures d.isActive.None? ==> f.isActive
    ensures d.isActive.Some? ==> f.isActive == d.isActive.value
    ensures && f.name == OrEmpty(d.name) && f.alias == OrEmpty(d.alias)
            && f.natureOfGroup == OrEmpty(d.natureOfGroup) && f.netEffect == OrEmpty(d.netEffect)
  {
    AccountGroupForm(d.id, OrEmpty(d.name), OrEmpty(d.alias), d.parentGroupId,
                     OrEmpty(d.natureOfGroup), OrEmpty(d.netEffect),
                     if d.isActive.Some? then d.isActive.value else true)
  }

  /** A record with every property missing loads as the initial form with its id. */
  lemma MissingRecordForm(id: nat)
    ensures EditForm(AccountGroupData(id, None, None, None, None, None, None)) == InitialForm.(id := id)
  {
  }

  /** A group stored with parent 0 is loaded with parent 0 but saved with no parent. */
  lemma ZeroParentSentAsNull(d: AccountGroupData, editingId: nat)
    requires d.parentGroupId == Some(0)
    requires Submit(EditForm(d), editingId).Ok?
    ensures EditForm(d).parentGroupId == Some(0)
    ensures Submit(EditForm(d), editingId).value.payload.parentGroupId.None?
  {
  }

  /** What the server stores for a body it was sent. */
  function Stored(p: AccountGroupPayload): AccountGroupData {
    AccountGroupData(p.id, Some(p.name), Some(p.alias), p.parentGroupId, Some(p.natureOfGroup),
                     Some(p.netEffect), Some(p.isActive))
  }

  /** Cleaning is stable: a group that was saved, loaded back for editing and saved
      again unchanged is sent with the body it was first sent with. */
  lemma SaveLoadSave(f: AccountGroupForm, editingId: nat, id: nat)
    requires Submit(f, editingId).Ok? && id != 0
    ensures var p := Submit(f, editingId).value.payload.(id := id);
      Submit(EditForm(Stored(p)), id) == Ok(Update(id, p))
  {
    TrimIdempotent(f.name);
    TrimIdempotent(f.alias);
  }

  class AccountGroupsPage {
    var form: AccountGroupForm
    var editingId: nat
    var isModalOpen: bool
    var confirmDeleteId: Option<nat>

    constructor ()
      ensures form == InitialForm && editingId == 0 && !isModalOpen && confirmDeleteId.None?
    {
      form := InitialForm;
      editingId := 0;
      isModalOpen := false;
      confirmDeleteId := None;
    }

    /** The create button: it opens the dialog on whatever the form holds. */
    method OpenCreate()
      modifies this
      ensures form == old(form) && editingId == old(editingId) && confirmDeleteId == old(confirmDeleteId)
      ensures isModalOpen
    {
      isModalOpen := true;
    }

    /** The parent `<select>`: `None` is the "select" option, which clears the
        parent. */
    method SelectParent(choice: Option<nat>)
      modifies this
      ensures form == old(form).(parentGroupId := choice)
      ensures editingId == old(editingId) && isModalOpen == old(isModalOpen)
      ensures confirmDeleteId == old(confirmDeleteId)
    {
      form := form.(parentGroupId := choice);
    }

    /** `resetForm`. */
    method ResetForm()
      modifies this
      ensures form == InitialForm && editingId == 0 && !isModalOpen
      ensures confirmDeleteId == old(confirmDeleteId)
    {
      form := InitialForm;
      editingId := 0;
      isModalOpen := false;
    }

    /** `handleSubmit`; `saved` is whether the request succeeded, after which the form
        is reset. */
    method HandleSubmit(saved: bool) returns (request: Result<Request, AccountGroupError>)
      modifies this
      ensures request == Submit(old(form), old(editingId))
      ensures confirmDeleteId == old(confirmDeleteId)
      ensures request.Ok? && saved ==> form == InitialForm && editingId == 0 && !isModalOpen
      ensures !(request.Ok? && saved) ==>
                form == old(form) && editingId == old(editingId) && isModalOpen == old(isModalOpen)
    {
      if IsBlank(form.name) {
        return Err(NameRequired);
      }
      if form.natureOfGroup == "" {
        return Err(NatureRequired);
      }
      if form.netEffect == "" {
        return Err(NetEffectRequired);
      }
      var cleanData := Payload(form);
      if editingId != 0 {
        request := Ok(Update(editingId, cleanData));
      } else {
        request := Ok(CreateAccountGroup(cleanData));
      }
      if saved {
        ResetForm();
      }
    }

    /** `handleEdit(id)`: `response` is the loaded record, `None` when the request
        failed or returned nothing; a record without an id is refused. */
    method HandleEdit(response: Option<AccountGroupData>)
      modifies this
      ensures confirmDeleteId == old(confirmDeleteId)
      ensures response.Some? && response.value.id != 0 ==>
                form == EditForm(response.value) && editingId == response.value.id && isModalOpen
      ensures !(response.Some? && response.value.id != 0) ==>
                form == old(form) && editingId == old(editingId) && isModalOpen == old(isModalOpen)
    {
      if response.None? || response.value.id == 0 {
        return;
      }
      var data := response.value;
      form := EditForm(data);
      editingId := data.id;
      isModalOpen := true;
    }
  }
}
