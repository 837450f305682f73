/** The module-pages page: a page of the application (a name, a URL and a
    description, filed under a module and a sub-module) is checked, cleaned and sent
    as a create or an update.  This page checks no permission. */
module ModuleAddPages {
  import opened Common

  /** The form.  `id` 0 stands for `null`; `moduleId` and `subModuleId` 0 stand for
      the "select" option; `priority` is `None` for `NaN`.  `moduleName` and
      `subModuleName` are display names the body does not carry. */
  datatype ModulePageForm = ModulePageForm(
    id: nat, pageName: string, pageUrl: string, description: string, status: bool,
    priority: Option<int>, moduleId: nat, subModuleId: nat, moduleName: string, subModuleName: string)

  const InitialForm := ModulePageForm(0, "", "", "", true, Some(1), 0, 0, "", "")

  /** The request body (`cleanData`). */
  datatype ModulePagePayload = ModulePagePayload(
    id: nat, pageName: string, pageUrl: string, description: string, status: bool,
    priority: int, moduleId: nat, subModuleId: nat)

  datatype Request = Update(editingId: nat, payload: ModulePagePayload) | CreateModulePage(payload: ModulePagePayload)

  datatype ModulePageError = NameAndUrlRequired | ModuleRequired | SubModuleRequired

  /** `cleanData`: the three texts trimmed, the priority made positive, the display
      names dropped. */
  function Payload(f: ModulePageForm): ModulePagePayload {
    ModulePagePayload(f.id, Trim(f.pageName), Trim(f.pageUrl), Trim(f.description), f.status,
                      PositivePriority(f.priority), f.moduleId, f.subModuleId)
  }

  /** `handleSubmit`: name and URL, then the module, then the sub-module; an update
      when a page is being edited (`editingId` non-zero). */
  function Submit(f: ModulePageForm, editingId: nat): (r: Result<Request, ModulePageError>)
    ensures IsBlank(f.pageName) || IsBlank(f.pageUrl) ==> r == Err(NameAndUrlRequired)
    ensures !IsBlank(f.pageName) && !IsBlank(f.pageUrl) && f.moduleId == 0 ==> r == Err(ModuleRequired)
    ensures !IsBlank(f.pageName) && !IsBlank(f.pageUrl) && f.moduleId != 0 && f.subModuleId == 0 ==>
              r == Err(SubModuleRequired)
    ensures r.Ok? <==> !IsBlank(f.pageName) && !IsBlank(f.pageUrl) && f.moduleId != 0 && f.subModuleId != 0
    ensures r.Ok? && editingId != 0 ==> r.value == Update(editingId, Payload(f))
    ensures r.Ok? && editingId == 0 ==> r.value == CreateModulePage(Payload(f))
  {
    if IsBlank(f.pageName) || IsBlank(f.pageUrl) then Err(NameAndUrlRequired)
    else if f.moduleId == 0 then Err(ModuleRequired)
    else if f.subModuleId == 0 then Err(SubModuleRequired)
    else if editingId != 0 then Ok(Update(editingId, Payload(f)))
    else Ok(CreateModulePage(Payload(f)))
  }

  /** An accepted body has a non-empty name and URL, no text with white space at
      either end, a positive priority, and both ids chosen. */
  lemma AcceptedPayloadClean(f: ModulePageForm, editingId: nat)
    requires Submit(f, editingId).Ok?
    ensures var p := Submit(f, editingId).value.payload;
      && p.pageName != "" && p.pageUrl != ""
      && Trimmed(p.pageName) && Trimmed(p.pageUrl) && Trimmed(p.description)
      && p.priority >= 1 && p.moduleId != 0 && p.subModuleId != 0
  {
    TrimFacts(f.pageName);
    TrimFacts(f.pageUrl);
    TrimFacts(f.description);
  }

  /** The record the server returns for one page; `None` for a missing property. */
  datatype ModulePageData = ModulePageData(
    id: nat, pageName: Option<string>, pageUrl: Option<string>, description: Option<string>,
    status: Option<bool>, priority: Option<int>, moduleId: Option<nat>, subModuleId: Option<nat>)

  /** The form `handleEdit` fills in: texts default to "", the flag to active, the
      priority to 1 and the ids to 0; the display names are not filled in. */
  function EditForm(d: ModulePageData): (f: ModulePageForm)
    ensures f.id == d.id
    ensures d.priority.None? ==> f.priority == Some(1)
    ensures d.priority.Some? ==> f.priority == d.priority
    ensures d.moduleId.None? ==> f.moduleId == 0
    ensures d.moduleId.Some? ==> f.moduleId == d.moduleId.value
    ensures d.subModuleId.None? ==> f.subModuleId == 0
    ensures d.subModuleId.Some? ==> f.subModuleId == d.subModuleId.value
    ensures d.status.None? ==> f.status
    ensures d.status.Some? ==> f.status == d.status.value
    ensures && f.pageName == OrEmpty(d.pageName) && f.pageUrl == OrEmpty(d.pageUrl)
            && f.description == OrEmpty(d.description)
    ensures f.moduleName == "" && f.subModuleName == ""
  {
    ModulePageForm(d.id, OrEmpty(d.pageName), OrEmpty(d.pageUrl), OrEmpty(d.description),
                   if d.status.Some? then d.status.value else true,
                   Some(if d.priority.Some? then d.priority.value else 1),
                   if d.moduleId.Some? then d.moduleId.value else 0,
                   if d.subModuleId.Some? then d.subModuleId.value else 0, "", "")
  }

  /** A record with every property missing loads as the initial form with its id. */
  lemma MissingRecordForm(id: nat)
    ensures EditForm(ModulePageData(id, None, None, None, None, None, None, None)) == InitialForm.(id := id)
  {
  }

  /** What the server stores for a body it was sent. */
  function Stored(p: ModulePagePayload): ModulePageData {
    ModulePageData(p.id, Some(p.pageName), Some(p.pageUrl), Some(p.description), Some(p.status),
                   Some(p.priority), Some(p.moduleId), Some(p.subModuleId))
  }

  /** Cleaning is stable: a page that was saved, loaded back for editing and saved
      again unchanged is sent with exactly the body it was first sent with. */
  lemma SaveLoadSave(f: ModulePageForm, editingId: nat, id: nat)
    requires Submit(f, editingId).Ok? && id != 0
    ensures var p := Submit(f, editingId).value.payload.(id := id);
      Submit(EditForm(Stored(p)), id) == Ok(Update(id, p))
  {
    TrimIdempotent(f.pageName);
    TrimIdempotent(f.pageUrl);
    TrimIdempotent(f.description);
  }

  class ModuleAddPagesPage {
    var form: ModulePageForm
    var editingId: nat
    var isModalOpen: bool

    constructor ()
      ensures form == InitialForm && editingId == 0 && !isModalOpen
    {
      form := InitialForm;
      editingId := 0;
      isModalOpen := false;
    }

    /** The create button: it opens the dialog on whatever the form holds. */
    method OpenCreate()
      modifies this
      ensures form == old(form) && editingId == old(editingId) && isModalOpen
    {
      isModalOpen := true;
    }

    /** Closing the dialog: it is closed, the form emptied and no page is being
        edited. */
    method CloseDialog()
      modifies this
      ensures !isModalOpen && editingId == 0
      ensures form == InitialForm
    {
      isModalOpen := false;
      form := InitialForm;
      editingId := 0;
    }

    /** The module `<select>` (the "select" option is 0). */
    method SelectModule(moduleId: nat)
      modifies this
      ensures form == old(form).(moduleId := moduleId)
      ensures editingId == old(editingId) && isModalOpen == old(isModalOpen)
    {
      form := form.(moduleId := moduleId);
    }

    /** The sub-module `<select>`. */
    method SelectSubModule(subModuleId: nat)
      modifies this
      ensures form == old(form).(subModuleId := subModuleId)
      ensures editingId == old(editingId) && isModalOpen == old(isModalOpen)
    {
      form := form.(subModuleId := subModuleId);
    }

    /** `handleSubmit`; `saved` is whether the request succeeded, after which the form
        returns to its defaults and the dialog closes. */
    method HandleSubmit(saved: bool) returns (request: Result<Request, ModulePageError>)
      modifies this
      ensures request == Submit(old(form), old(editingId))
      ensures request.Ok? && saved ==> form == InitialForm && editingId == 0 && !isModalOpen
      ensures !(request.Ok? && saved) ==>
                form == old(form) && editingId == old(editingId) && isModalOpen == old(isModalOpen)
    {
      if IsBlank(form.pageName) || IsBlank(form.pageUrl) {
        return Err(NameAndUrlRequired);
      }
      if form.moduleId == 0 {
        return Err(ModuleRequired);
      }
      if form.subModuleId == 0 {
        return Err(SubModuleRequired);
      }
      var cleanData := Payload(form);
      if editingId != 0 {
        request := Ok(Update(editingId, cleanData));
      } else {
        request := Ok(CreateModulePage(cleanData));
      }
      if saved {
        form := InitialForm;
        editingId := 0;
        isModalOpen := false;
      }
    }

    /** `handleEdit(id)`: `response` is the loaded record, `None` when the request
        failed or returned nothing; a record without an id is refused. */
    method HandleEdit(response: Option<ModulePageData>)
      modifies this
      ensures response.Some? && response.value.id != 0 ==>
                form == EditForm(response.value) && editingId == response.value.id && isModalOpen
      ensures !(response.Some? && response.value.id != 0) ==>
                form == old(form) && editingId == old(editingId) && isModalOpen == old(isModalOpen)
    {
      if response.None? || response.value.id == 0 {
        return;
      }
      var data := response.value;
      form := EditForm(data);
      editingId := data.id;
      isModalOpen := true;
    }
  }
}
