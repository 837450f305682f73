/** The voucher-type page: a voucher type is checked for its code, its name and at
    least one approving or verifying role, its starting number is normalised, and it
    is sent as a create or an update.  The page itself checks no permission on
    submit. */
module VoucherTypes {
  import opened Common

  /** A role reference as the form holds it: nothing chosen (`null` or absent), the
      text of a chosen `<option>`, or the id a stored voucher type came back with. */
  datatype RoleRef = NoRole | Chosen(value: string) | Stored(id: nat)

  /** JavaScript truthiness of a role reference. */
  predicate Truthy(r: RoleRef) {
    match r
    case NoRole => false
    case Chosen(v) => v != ""
    case Stored(n) => n != 0
  }

  /** The form.  `id` 0 stands for `null`; `startingNumber` is `None` when the field
      holds `NaN` (what `parseInt` gives for an empty or non-numeric entry). */
  datatype VoucherTypeForm = VoucherTypeForm(
    id: nat, code: string, name: string, category: string, numberingMethod: string,
    prefix: string, suffix: string, startingNumber: Option<int>, isActive: bool,
    approveUserRoleId: RoleRef, verifiedUserRoleId: RoleRef)

  /** The form the page starts with and `resetForm` restores. */
  const InitialForm := VoucherTypeForm(0, "", "", "Accounts", "Auto", "", "", Some(1), true, NoRole, NoRole)

  /** The request body (`cleanData`): the form with a numeric starting number. */
  datatype VoucherTypePayload = VoucherTypePayload(
    id: nat, code: string, name: string, category: string, numberingMethod: string,
    prefix: string, suffix: string, startingNumber: int, isActive: bool,
    approveUserRoleId: RoleRef, verifiedUserRoleId: RoleRef)

  datatype Request = Update(editingId: nat, payload: VoucherTypePayload) | CreateVoucherType(payload: VoucherTypePayload)

  datatype VoucherTypeError = CodeAndNameRequired | RoleRequired

  /** `Number.isFinite(Number(n)) ? parseInt(n) : 1`. */
  function StartingNumber(n: Option<int>): (r: int)
    ensures n.Some? ==> r == n.value
    ensures n.None? ==> r == 1
  {
    if n.Some? then n.value else 1
  }

  function Payload(f: VoucherTypeForm): VoucherTypePayload {
    VoucherTypePayload(f.id, f.code, f.name, f.category, f.numberingMethod, f.prefix, f.suffix,
                       StartingNumber(f.startingNumber), f.isActive,
                       f.approveUserRoleId, f.verifiedUserRoleId)
  }

  /** `handleSubmit`: code and name first, then a role; an update when a voucher type
      is being edited (`editingId` non-zero). */
  function Submit(f: VoucherTypeForm, editingId: nat): (r: Result<Request, VoucherTypeError>)
    ensures IsBlank(f.code) || IsBlank(f.name) ==> r == Err(CodeAndNameRequired)
    ensures !IsBlank(f.code) && !IsBlank(f.name) && !Truthy(f.approveUserRoleId) && !Truthy(f.verifiedUserRoleId) ==>
              r == Err(RoleRequired)
    ensures r.Ok? <==> !IsBlank(f.code) && !IsBlank(f.name) && (Truthy(f.approveUserRoleId) || Truthy(f.verifiedUserRoleId))
    ensures r.Ok? && editingId != 0 ==> r.value == Update(editingId, Payload(f))
    ensures r.Ok? && editingId == 0 ==> r.value == CreateVoucherType(Payload(f))
  {
    if IsBlank(f.code) || IsBlank(f.name) then Err(CodeAndNameRequired)
    else if !Truthy(f.approveUserRoleId) && !Truthy(f.verifiedUserRoleId) then Err(RoleRequired)
    else if editingId != 0 then Ok(Update(editingId, Payload(f)))
    else Ok(CreateVoucherType(Payload(f)))
  }

  /** The body keeps every field of the form (code and name as typed, not trimmed)
      and sends the starting number as it is when it is a number, 1 otherwise. */
  lemma PayloadKeepsForm(f: VoucherTypeForm)
    ensures var p := Payload(f);
      && p.id == f.id && p.code == f.code && p.name == f.name && p.category == f.category
      && p.numberingMethod == f.numberingMethod && p.prefix == f.prefix && p.suffix == f.suffix
      && p.isActive == f.isActive
      && p.approveUserRoleId == f.approveUserRoleId && p.verifiedUserRoleId == f.verifiedUserRoleId
      && (f.startingNumber.Some? ==> p.startingNumber == f.startingNumber.value)
      && (f.startingNumber.None? ==> p.startingNumber == 1)
  {
  }

  /** The starting number is not checked for being positive: a form whose number is
      zero or negative is sent with that number. */
  lemma NonPositiveStartSent(f: VoucherTypeForm, n: int)
    requires n <= 0
    requires !IsBlank(f.code) && !IsBlank(f.name) && Truthy(f.approveUserRoleId)
    ensures var r := Submit(f.(startingNumber := Some(n)), 0);
      r.Ok? && r.value.payload.startingNumber == n
  {
  }

  /** The record the server returns for one voucher type; `None` for a missing
      property. */
  datatype VoucherTypeData = VoucherTypeData(
    id: nat, code: Option<string>, name: Option<string>, category: Option<string>,
    numberingMethod: Option<string>, prefix: Option<string>, suffix: Option<string>,
    startingNumber: Option<int>, isActive: Option<bool>,
    approveUserRoleId: Option<nat>, verifiedUserRoleId: Option<nat>)

  /** `v || d` on a text property: a missing or empty text falls back to `d`. */
  function OrText(v: Option<string>, d: string): (r: string)
    ensures v.Some? && v.value != "" ==> r == v.value
    ensures v.None? || v.value == "" ==> r == d
  {
    if v.Some? && v.value != "" then v.value else d
  }

  /** `v || null` on a role id: a missing id or id 0 is no role. */
  function OrNoRole(v: Option<nat>): (r: RoleRef)
    ensures Truthy(r) <==> v.Some? && v.value != 0
    ensures Truthy(r) ==> r == Stored(v.value)
  {
    if v.Some? && v.value != 0 then Stored(v.value) else NoRole
  }

  /** The form `handleEdit` fills in.  Text properties use `||`, so an empty text
      takes the default as well; the starting number and the active flag use `??`,
      so only a missing value does. */
  function EditForm(d: VoucherTypeData): (f: VoucherTypeForm)
    ensures f.id == d.id
    ensures && f.code == OrText(d.code, "") && f.name == OrText(d.name, "")
            && f.prefix == OrText(d.prefix, "") && f.suffix == OrText(d.suffix, "")
    ensures f.category == OrText(d.category, "Accounts")
    ensures f.numberingMethod == OrText(d.numberingMethod, "Auto")
    ensures f.startingNumber == Some(if d.startingNumber.Some? then d.startingNumber.value else 1)
    ensures f.isActive == (d.isActive.None? || d.isActive.value)
    ensures f.approveUserRoleId == OrNoRole(d.approveUserRoleId)
    ensures f.verifiedUserRoleId == OrNoRole(d.verifiedUserRoleId)
  {
    VoucherTypeForm(d.id, OrText(d.code, ""), OrText(d.name, ""), OrText(d.category, "Accounts"),
                    OrText(d.numberingMethod, "Auto"), OrText(d.prefix, ""), OrText(d.suffix, ""),
                    Some(if d.startingNumber.Some? then d.startingNumber.value else 1),
                    if d.isActive.Some? then d.isActive.value else true,
                    OrNoRole(d.approveUserRoleId), OrNoRole(d.verifiedUserRoleId))
  }

  /** A record with every property missing loads as the initial form with its id. */
  lemma MissingRecordForm(id: nat)
    ensures EditForm(VoucherTypeData(id, None, None, None, None, None, None, None, None, None, None))
         == InitialForm.(id := id)
  {
  }

  /** The two kinds of default differ: an empty category reads as `Accounts`, while a
      stored starting number 0 and a stored inactive flag are kept. */
  lemma DefaultsDiffer(d: VoucherTypeData)
    requires d.category == Some("") && d.startingNumber == Some(0) && d.isActive == Some(false)
    ensures var f := EditForm(d);
      f.category == "Accounts" && f.startingNumber == Some(0) && !f.isActive
  {
  }

  /** Loading a stored voucher type that names a role and saving it unchanged sends
      an update of that voucher type with its stored values. */
  lemma EditThenSubmit(d: VoucherTypeData)
    requires d.id != 0
    requires d.code.Some? && !IsBlank(d.code.value) && d.name.Some? && !IsBlank(d.name.value)
    requires d.approveUserRoleId.Some? && d.approveUserRoleId.value != 0
    ensures var r := Submit(EditForm(d), d.id);
      && r.Ok? && r.value == Update(d.id, r.value.payload)
      && r.value.payload.code == d.code.value && r.value.payload.name == d.name.value
      && r.value.payload.approveUserRoleId == Stored(d.approveUserRoleId.value)
      && r.value.payload.startingNumber == (if d.startingNumber.Some? then d.startingNumber.value else 1)
  {
  }

  /** A role `<select>`: the empty option clears the role (`value || null`). */
  function SelectRole(value: string): (r: RoleRef)
    ensures Truthy(r) <==> value != ""
    ensures value != "" ==> r == Chosen(value)
  {
    if value == "" then NoRole else Chosen(value)
  }

  class VoucherTypesPage {
    var form: VoucherTypeForm
    var editingId: nat
    var isModalOpen: bool
    var permissions: Permissions

    constructor (permissions: Permissions)
      ensures form == InitialForm && editingId == 0 && !isModalOpen && this.permissions == permissions
    {
      form := InitialForm;
      editingId := 0;
      isModalOpen := false;
      this.permissions := permissions;
    }

    /** The create button: shown only with `isAdd`, it opens the dialog on whatever
        the form holds. */
    method OpenCreate()
      modifies this
      ensures form == old(form) && editingId == old(editingId) && permissions == old(permissions)
      ensures isModalOpen == (old(isModalOpen) || permissions.isAdd)
    {
      if permissions.isAdd {
        isModalOpen := true;
      }
    }

    /** The approved-by `<select>`. */
    method SelectApprovedBy(value: string)
      modifies this
      ensures form == old(form).(approveUserRoleId := SelectRole(value))
      ensures editingId == old(editingId) && isModalOpen == old(isModalOpen) && permissions == old(permissions)
    {
      form := form.(approveUserRoleId := SelectRole(value));
    }

    /** The verified-by `<select>`. */
    method SelectVerifiedBy(value: string)
      modifies this
      ensures form == old(form).(verifiedUserRoleId := SelectRole(value))
      ensures editingId == old(editingId) && isModalOpen == old(isModalOpen) && permissions == old(permissions)
    {
      form := form.(verifiedUserRoleId := SelectRole(value));
    }

    /** `resetForm`: the defaults, no role, no voucher type being edited, the dialog
        closed. */
    method ResetForm()
      modifies this
      ensures form == InitialForm && editingId == 0 && !isModalOpen && permissions == old(permissions)
    {
      form := InitialForm;
      editingId := 0;
      isModalOpen := false;
    }

    /** `handleSubmit`; `saved` is whether the request succeeded, after which the form
        is reset. */
    method HandleSubmit(saved: bool) returns (request: Result<Request, VoucherTypeError>)
      modifies this
      ensures request == Submit(old(form), old(editingId))
      ensures permissions == old(permissions)
      ensures request.Ok? && saved ==> form == InitialForm && editingId == 0 && !isModalOpen
      ensures !(request.Ok? && saved) ==>
                form == old(form) && editingId == old(editingId) && isModalOpen == old(isModalOpen)
    {
      if IsBlank(form.code) || IsBlank(form.name) {
        return Err(CodeAndNameRequired);
      }
      if !Truthy(form.approveUserRoleId) && !Truthy(form.verifiedUserRoleId) {
        return Err(RoleRequired);
      }
      var cleanData := Payload(form);
      if editingId != 0 {
        request := Ok(Update(editingId, cleanData));
      } else {
        request := Ok(CreateVoucherType(cleanData));
      }
      if saved {
        ResetForm();
      }
    }

    /** `handleEdit(id)`: `response` is the loaded record, `None` when the request
        failed or returned nothing; a record without an id is refused. */
    method HandleEdit(response: Option<VoucherTypeData>)
      modifies this
      ensures permissions == old(permissions)
      ensures response.Some? && response.value.id != 0 ==>
                form == EditForm(response.value) && editingId == response.value.id && isModalOpen
      ensures !(response.Some? && response.value.id != 0) ==>
                form == old(form) && editingId == old(editingId) && isModalOpen == old(isModalOpen)
    {
      if response.None? || response.value.id == 0 {
        return;
      }
      var data := response.value;
      form := EditForm(data);
      editingId := data.id;
      isModalOpen := true;
    }
  }
}
