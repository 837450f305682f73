/** The ledger page: a ledger form checked field by field, normalised, and sent as a
    create or an update. */
module Ledgers {
  import opened Common

  /** The bank and tax details, carried through unchanged. */
  datatype Details = Details(address: string, gstin: string, pan: string, bankName: string,
                             accountNo: string, ifsc: string, swiftCode: string)

  const NoDetails := Details("", "", "", "", "", "", "")

  /** The form.  `accountGroupId` 0 stands for no group chosen; `openingBalance` and
      `parentLedgerId` are `None` when the field is empty.  Amounts are in cents. */
  datatype LedgerForm = LedgerForm(
    id: nat, accountGroupId: nat, parentLedgerId: Option<nat>, name: string, alias: string,
    openingBalance: Option<int>, balanceType: string, email: string, phone: string,
    details: Details, isActive: bool, accountGroupName: string, parentLedgerName: string)

  /** `initialForm`. */
  const InitialForm := LedgerForm(0, 0, Some(0), "", "", Some(0), "D", "", "", NoDetails, true, "", "")

  /** The request body: the form with its balance, parent and balance type normalised
      and the two display names blanked. */
  datatype LedgerPayload = LedgerPayload(
    id: nat, accountGroupId: nat, parentLedgerId: nat, name: string, alias: string,
    openingBalance: int, balanceType: string, email: string, phone: string,
    details: Details, isActive: bool, accountGroupName: string, parentLedgerName: string)

  datatype Request = Update(editingId: nat, payload: LedgerPayload) | CreateLedger(payload: LedgerPayload)

  datatype LedgerError = NameRequired | GroupRequired | InvalidEmail | InvalidPhone

  /** `'Credit'` and `'C'` mean credit; anything else is a debit. */
  function BalanceType(s: string): (t: string)
    ensures t == "C" <==> s == "Credit" || s == "C"
    ensures t == "C" || t == "D"
  {
    if s == "Credit" || s == "C" then "C" else "D"
  }

  function OrZero(v: Option<int>): int {
    if v.Some? then v.value else 0
  }

  function Payload(f: LedgerForm): LedgerPayload {
    LedgerPayload(f.id, f.accountGroupId, if f.parentLedgerId.Some? then f.parentLedgerId.value else 0,
                  f.name, f.alias, OrZero(f.openingBalance), BalanceType(f.balanceType), f.email, f.phone,
                  f.details, f.isActive, "", "")
  }

  /** `handleSubmit`: name, group, e-mail and phone are checked in that order, the
      e-mail and the phone only when filled in; then the request, an update when a
      ledger is being edited (`editingId` non-zero). */
  function Submit(f: LedgerForm, editingId: nat): (r: Result<Request, LedgerError>)
    ensures IsBlank(f.name) ==> r == Err(NameRequired)
    ensures !IsBlank(f.name) && f.accountGroupId == 0 ==> r == Err(GroupRequired)
    ensures !IsBlank(f.name) && f.accountGroupId != 0 && f.email != "" && !EmailShape(f.email) ==>
              r == Err(InvalidEmail)
    ensures (!IsBlank(f.name) && f.accountGroupId != 0 && (f.email == "" || EmailShape(f.email))
             && f.phone != "" && !PhoneShape(f.phone)) ==> r == Err(InvalidPhone)
    ensures r.Ok? ==> r.value.payload == Payload(f) && (r.value.Update? <==> editingId != 0)
  {
    if IsBlank(f.name) then Err(NameRequired)
    else if f.accountGroupId == 0 then Err(GroupRequired)
    else if f.email != "" && !EmailShape(f.email) then Err(InvalidEmail)
    else if f.phone != "" && !PhoneShape(f.phone) then Err(InvalidPhone)
    else if editingId != 0 then Ok(Update(editingId, Payload(f)))
    else Ok(CreateLedger(Payload(f)))
  }

  /** A form is accepted exactly when its name has a non-space character, a group is
      chosen, and the e-mail and phone, when filled in, match their patterns. */
  lemma SubmitOkIff(f: LedgerForm, editingId: nat)
    ensures Submit(f, editingId).Ok? <==>
      && (exists k :: 0 <= k < |f.name| && !IsSpace(f.name[k]))
      && f.accountGroupId != 0
      && (f.email != "" ==> InEmailLanguage(f.email))
      && (f.phone != "" ==> PhoneShape(f.phone))
  {
    BlankIffAllSpace(f.name);
    EmailShapeMatchesRegex(f.email);
  }

  /** The request carries the form's values: the name as typed (not trimmed), an empty
      balance or parent as 0, and no display names. */
  lemma PayloadKeepsValues(f: LedgerForm)
    ensures var p := Payload(f);
      && p.id == f.id && p.accountGroupId == f.accountGroupId
      && p.name == f.name && p.alias == f.alias && p.details == f.details
      && p.email == f.email && p.phone == f.phone && p.isActive == f.isActive
      && p.balanceType == BalanceType(f.balanceType)
      && (f.openingBalance.None? ==> p.openingBalance == 0)
      && (f.openingBalance.Some? ==> p.openingBalance == f.openingBalance.value)
      && (f.parentLedgerId.None? ==> p.parentLedgerId == 0)
      && (f.parentLedgerId.Some? ==> p.parentLedgerId == f.parentLedgerId.value)
      && p.accountGroupName == "" && p.parentLedgerName == ""
  {
  }

  /** The bank and tax details of a returned record; `None` for a missing property. */
  datatype DetailsData = DetailsData(
    address: Option<string>, gstin: Option<string>, pan: Option<string>, bankName: Option<string>,
    accountNo: Option<string>, ifsc: Option<string>, swiftCode: Option<string>)

  const NoDetailsData := DetailsData(None, None, None, None, None, None, None)

  /** The record the server returns for one ledger; `None` for a missing property. */
  datatype LedgerData = LedgerData(
    id: nat, accountGroupId: Option<nat>, parentLedgerId: Option<nat>, name: Option<string>,
    alias: Option<string>, openingBalance: Option<int>, balanceType: Option<string>,
    email: Option<string>, phone: Option<string>, details: DetailsData, isActive: Option<bool>,
    accountGroupName: Option<string>, parentLedgerName: Option<string>)

  function OrText(v: Option<string>, d: string): (r: string)
    ensures v.Some? ==> r == v.value
    ensures v.None? ==> r == d
  {
    if v.Some? then v.value else d
  }

  /** The seven detail texts `handleEdit` reads, each `?? ''`. */
  function EditDetails(d: DetailsData): (x: Details)
    ensures && x.address == OrText(d.address, "") && x.gstin == OrText(d.gstin, "")
            && x.pan == OrText(d.pan, "") && x.bankName == OrText(d.bankName, "")
            && x.accountNo == OrText(d.accountNo, "") && x.ifsc == OrText(d.ifsc, "")
            && x.swiftCode == OrText(d.swiftCode, "")
  {
    Details(OrText(d.address, ""), OrText(d.gstin, ""), OrText(d.pan, ""), OrText(d.bankName, ""),
            OrText(d.accountNo, ""), OrText(d.ifsc, ""), OrText(d.swiftCode, ""))
  }

  /** The form `handleEdit` fills in: every missing property takes its default. */
  function EditForm(d: LedgerData): (f: LedgerForm)
    ensures f.id == d.id && f.details == EditDetails(d.details)
    ensures d.accountGroupId.None? ==> f.accountGroupId == 0
    ensures d.accountGroupId.Some? ==> f.accountGroupId == d.accountGroupId.value
    ensures d.parentLedgerId.None? ==> f.parentLedgerId == Some(0)
    ensures d.parentLedgerId.Some? ==> f.parentLedgerId == d.parentLedgerId
    ensures d.openingBalance.None? ==> f.openingBalance == Some(0)
    ensures d.openingBalance.Some? ==> f.openingBalance == d.openingBalance
    ensures && f.name == OrText(d.name, "") && f.alias == OrText(d.alias, "")
            && f.email == OrText(d.email, "") && f.phone == OrText(d.phone, "")
            && f.balanceType == OrText(d.balanceType, "D")
            && f.accountGroupName == OrText(d.accountGroupName, "")
            && f.parentLedgerName == OrText(d.parentLedgerName, "")
    ensures d.isActive.None? ==> f.isActive
    ensures d.isActive.Some? ==> f.isActive == d.isActive.value
  {
    LedgerForm(d.id, if d.accountGroupId.Some? then d.accountGroupId.value else 0,
               Some(if d.parentLedgerId.Some? then d.parentLedgerId.value else 0),
               OrText(d.name, ""), OrText(d.alias, ""),
               Some(OrZero(d.openingBalance)), OrText(d.balanceType, "D"),
               OrText(d.email, ""), OrText(d.phone, ""), EditDetails(d.details),
               if d.isActive.Some? then d.isActive.value else true,
               OrText(d.accountGroupName, ""), OrText(d.parentLedgerName, ""))
  }

  /** A record with every property missing loads as the initial form with its id. */
  lemma MissingRecordForm(id: nat)
    ensures EditForm(LedgerData(id, None, None, None, None, None, None, None, None, NoDetailsData, None, None, None))
         == InitialForm.(id := id)
  {
  }

  /** Loading a stored ledger and saving it unchanged sends an update of that ledger
      with its own values, provided the stored values pass the checks. */
  lemma EditThenSubmit(d: LedgerData)
    requires d.id != 0 && d.name.Some? && !IsBlank(d.name.value)
    requires d.accountGroupId.Some? && d.accountGroupId.value != 0
    requires d.email.None? || d.email.value == "" || EmailShape(d.email.value)
    requires d.phone.None? || d.phone.value == "" || PhoneShape(d.phone.value)
    ensures var r := Submit(EditForm(d), d.id);
      && r.Ok? && r.value.Update? && r.value.editingId == d.id
      && r.value.payload.id == d.id
      && r.value.payload.name == d.name.value
      && r.value.payload.accountGroupId == d.accountGroupId.value
      && r.value.payload.parentLedgerId == (if d.parentLedgerId.Some? then d.parentLedgerId.value else 0)
      && r.value.payload.openingBalance == OrZero(d.openingBalance)
      && r.value.payload.balanceType == BalanceType(OrText(d.balanceType, "D"))
      && r.value.payload.alias == OrText(d.alias, "")
      && r.value.payload.email == OrText(d.email, "") && r.value.payload.phone == OrText(d.phone, "")
      && r.value.payload.details == EditDetails(d.details)
      && r.value.payload.isActive == (if d.isActive.Some? then d.isActive.value else true)
      && r.value.payload.accountGroupName == "" && r.value.payload.parentLedgerName == ""
  {
  }

  class LedgersPage {
    var form: LedgerForm
    var editingId: nat
    var isModalOpen: bool

    constructor ()
      ensures form == InitialForm && editingId == 0 && !isModalOpen
    {
      form := InitialForm;
      editingId := 0;
      isModalOpen := false;
    }

    /** `resetForm`. */
    method ResetForm()
      modifies this
      ensures form == InitialForm && editingId == 0 && isModalOpen == old(isModalOpen)
    {
      form := InitialForm;
      editingId := 0;
    }

    /** `openCreate`: a fresh form in an open dialog. */
    method OpenCreate()
      modifies this
      ensures form == InitialForm && editingId == 0 && isModalOpen
    {
      ResetForm();
      isModalOpen := true;
    }

    /** `handleSubmit`; `saved` is whether the request succeeded.  A successful save
        resets the form and closes the dialog; anything else leaves the page as it
        was. */
    method HandleSubmit(saved: bool) returns (request: Result<Request, LedgerError>)
      modifies this
      ensures request == Submit(old(form), old(editingId))
      ensures request.Ok? && saved ==> form == InitialForm && editingId == 0 && !isModalOpen
      ensures !(request.Ok? && saved) ==>
                form == old(form) && editingId == old(editingId) && isModalOpen == old(isModalOpen)
    {
      request := Submit(form, editingId);
      if request.Ok? && saved {
        ResetForm();
        isModalOpen := false;
      }
    }

    /** `handleEdit(id)`: `response` is the loaded record, `None` when the request
        failed or returned nothing; a record without an id is refused. */
    method HandleEdit(response: Option<LedgerData>)
      modifies this
      ensures response.Some? && response.value.id != 0 ==>
                form == EditForm(response.value) && editingId == response.value.id && isModalOpen
      ensures !(response.Some? && response.value.id != 0) ==>
                form == old(form) && editingId == old(editingId) && isModalOpen == old(isModalOpen)
    {
      if response.None? || response.value.id == 0 {
        return;
      }
      form := EditForm(response.value);
      editingId := response.value.id;
      isModalOpen := true;
    }
  }
}
