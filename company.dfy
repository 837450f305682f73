/** The company page: a company form checked, turned into a multipart form-data body
    one field at a time (with the logo as a file or as a stored path), and sent as a
    create or an update, each gated by the page permissions. */
module Company {
  import opened Common

  /** The form; every text field is a string, "" when empty. */
  datatype CompanyForm = CompanyForm(
    id: nat, companyCode: string, name: string, address: string, phone: string, email: string,
    website: string, pan: string, gstin: string, registrationNo: string,
    financialYearStart: string, financialYearEnd: string, baseCurrency: string, companyType: string,
    industryType: string, logoPath: string, isActive: bool)

  const InitialForm := CompanyForm(0, "", "", "", "", "", "", "", "", "", "", "", "", "", "", "", true)

  /** A file picked for upload, known to the model only by its identity. */
  datatype LogoFile = LogoFile(handle: nat)

  /** The text parts of the body, in the order they are appended. */
  datatype TextName =
    | CompanyCode | Name | Address | Phone | Email | Website | Pan | Gstin | RegistrationNo
    | FinancialYearStart | FinancialYearEnd | BaseCurrency | CompanyType | IndustryType | IsActive

  /** The names the body's parts are sent under. */
  datatype FieldName = TextPart(t: TextName) | LogoFileField | LogoPath | Id

  /** The name as it appears on the wire. */
  function WireName(n: FieldName): string {
    match n
    case TextPart(t) => (
      match t
      case CompanyCode => "companyCode"
      case Name => "name"
      case Address => "address"
      case Phone => "phone"
      case Email => "email"
      case Website => "website"
      case Pan => "pan"
      case Gstin => "gstin"
      case RegistrationNo => "registrationNo"
      case FinancialYearStart => "financialYearStart"
      case FinancialYearEnd => "financialYearEnd"
      case BaseCurrency => "baseCurrency"
      case CompanyType => "type"
      case IndustryType => "industryType"
      case IsActive => "isActive")
    case LogoFileField => "LogoFile"
    case LogoPath => "logoPath"
    case Id => "id"
  }

  const TextOrder: seq<TextName> := [CompanyCode, Name, Address, Phone, Email, Website, Pan, Gstin,
    RegistrationNo, FinancialYearStart, FinancialYearEnd, BaseCurrency, CompanyType, IndustryType, IsActive]

  /** The value sent for a text part: the field trimmed (`?.trim() || ''`), except the
      dates, sent as they are, and the active flag, sent as `true` or `false`. */
  function TextValue(f: CompanyForm, t: TextName): string {
    match t
    case CompanyCode => Trim(f.companyCode)
    case Name => Trim(f.name)
    case Address => Trim(f.address)
    case Phone => Trim(f.phone)
    case Email => Trim(f.email)
    case Website => Trim(f.website)
    case Pan => Trim(f.pan)
    case Gstin => Trim(f.gstin)
    case RegistrationNo => Trim(f.registrationNo)
    case FinancialYearStart => f.financialYearStart
    case FinancialYearEnd => f.financialYearEnd
    case BaseCurrency => Trim(f.baseCurrency)
    case CompanyType => Trim(f.companyType)
    case IndustryType => Trim(f.industryType)
    case IsActive => if f.isActive then "true" else "false"
  }

  /** A form-data value: text, a number turned into text by the browser, or a file. */
  datatype FormValue = Text(text: string) | Number(n: nat) | Blob(file: LogoFile)

  /** A multipart body under construction (`new FormData()` and its `append`). */
  class FormData {
    var entries: seq<(FieldName, FormValue)>

    constructor ()
      ensures entries == []
    {
      entries := [];
    }

    method Append(name: FieldName, value: FormValue)
      modifies this
      ensures entries == old(entries) + [(name, value)]
    {
      entries := entries + [(name, value)];
    }
  }

  function Part(f: CompanyForm, t: TextName): (FieldName, FormValue) {
    (TextPart(t), Text(TextValue(f, t)))
  }

  /** The text parts in the order they are appended. */
  function TextFields(f: CompanyForm): (fs: seq<(FieldName, FormValue)>) {
    seq(|TextOrder|, i requires 0 <= i < |TextOrder| => Part(f, TextOrder[i]))
  }

  /** The logo: the picked file when there is one, otherwise the stored path when it
      is not empty, otherwise nothing. */
  function LogoFields(f: CompanyForm, logo: Option<LogoFile>): (fs: seq<(FieldName, FormValue)>)
    ensures logo.Some? ==> fs == [(LogoFileField, Blob(logo.value))]
    ensures logo.None? && f.logoPath != "" ==> fs == [(LogoPath, Text(f.logoPath))]
    ensures logo.None? && f.logoPath == "" ==> fs == []
  {
    if logo.Some? then [(LogoFileField, Blob(logo.value))]
    else if f.logoPath != "" then [(LogoPath, Text(f.logoPath))]
    else []
  }

  function Fields(f: CompanyForm, logo: Option<LogoFile>): seq<(FieldName, FormValue)> {
    TextFields(f) + LogoFields(f, logo)
  }

  /** The first five appends of `handleSubmit`. */
  method AppendContact(fd: FormData, f: CompanyForm)
    modifies fd
    ensures fd.entries == old(fd.entries) + TextFields(f)[..5]
  {
    fd.Append(TextPart(CompanyCode), Text(TextValue(f, CompanyCode)));
    fd.Append(TextPart(Name), Text(TextValue(f, Name)));
    fd.Append(TextPart(Address), Text(TextValue(f, Address)));
    fd.Append(TextPart(Phone), Text(TextValue(f, Phone)));
    fd.Append(TextPart(Email), Text(TextValue(f, Email)));
    assert TextFields(f)[..5] == [Part(f, CompanyCode), Part(f, Name), Part(f, Address), Part(f, Phone), Part(f, Email)];
  }

  /** The next five appends of `handleSubmit`. */
  method AppendRegistration(fd: FormData, f: CompanyForm)
    modifies fd
    ensures fd.entries == old(fd.entries) + TextFields(f)[5..10]
  {
    fd.Append(TextPart(Website), Text(TextValue(f, Website)));
    fd.Append(TextPart(Pan), Text(TextValue(f, Pan)));
    fd.Append(TextPart(Gstin), Text(TextValue(f, Gstin)));
    fd.Append(TextPart(RegistrationNo), Text(TextValue(f, RegistrationNo)));
    fd.Append(TextPart(FinancialYearStart), Text(TextValue(f, FinancialYearStart)));
    assert TextFields(f)[5..10] == [Part(f, Website), Part(f, Pan), Part(f, Gstin), Part(f, RegistrationNo), Part(f, FinancialYearStart)];
  }

  /** The last five text appends of `handleSubmit`. */
  method AppendSettings(fd: FormData, f: CompanyForm)
    modifies fd
    ensures fd.entries == old(fd.entries) + TextFields(f)[10..]
  {
    fd.Append(TextPart(FinancialYearEnd), Text(TextValue(f, FinancialYearEnd)));
    fd.Append(TextPart(BaseCurrency), Text(TextValue(f, BaseCurrency)));
    fd.Append(TextPart(CompanyType), Text(TextValue(f, CompanyType)));
    fd.Append(TextPart(IndustryType), Text(TextValue(f, IndustryType)));
    fd.Append(TextPart(IsActive), Text(TextValue(f, IsActive)));
    assert TextFields(f)[10..] == [Part(f, FinancialYearEnd), Part(f, BaseCurrency), Part(f, CompanyType), Part(f, IndustryType), Part(f, IsActive)];
  }

  /** The appends of `handleSubmit`, in their order. */
  method BuildFormData(f: CompanyForm, logo: Option<LogoFile>) returns (fd: FormData)
    ensures fresh(fd) && fd.entries == Fields(f, logo)
  {
    fd := new FormData();
    AppendContact(fd, f);
    AppendRegistration(fd, f);
    AppendSettings(fd, f);
    var t := TextFields(f);
    assert t == t[..5] + t[5..10] + t[10..];
    if logo.Some? {
      fd.Append(LogoFileField, Blob(logo.value));
    } else if f.logoPath != "" {
      fd.Append(LogoPath, Text(f.logoPath));
    }
  }

  function Names(fs: seq<(FieldName, FormValue)>): (ns: seq<FieldName>)
    ensures |ns| == |fs| && forall i :: 0 <= i < |fs| ==> ns[i] == fs[i].0
  {
    seq(|fs|, i requires 0 <= i < |fs| => fs[i].0)
  }

  /** The position of a name in the body: the text parts in their order, then the
      logo (file or path), then the id. */
  function Rank(n: FieldName): nat {
    match n
    case TextPart(t) => (
      match t
      case CompanyCode => 0
      case Name => 1
      case Address => 2
      case Phone => 3
      case Email => 4
      case Website => 5
      case Pan => 6
      case Gstin => 7
      case RegistrationNo => 8
      case FinancialYearStart => 9
      case FinancialYearEnd => 10
      case BaseCurrency => 11
      case CompanyType => 12
      case IndustryType => 13
      case IsActive => 14)
    case LogoFileField => 15
    case LogoPath => 15
    case Id => 16
  }

  lemma RankedDistinct(ns: seq<FieldName>)
    requires forall i :: 0 <= i < |ns| ==> Rank(ns[i]) == i
    ensures Distinct(ns)
  {
    forall i, j | 0 <= i < j < |ns| ensures ns[i] != ns[j] {
      assert Rank(ns[i]) != Rank(ns[j]);
    }
  }

  lemma TextOrderRanked()
    ensures forall i :: 0 <= i < |TextOrder| ==> Rank(TextPart(TextOrder[i])) == i
  {
  }

  /** No name is sent twice, the edited id included, and the file and the stored path
      are never both sent. */
  lemma FieldNamesDistinct(f: CompanyForm, logo: Option<LogoFile>, editingId: nat)
    ensures Distinct(Names(Fields(f, logo) + [(Id, Number(editingId))]))
    ensures !(LogoFileField in Names(Fields(f, logo)) && LogoPath in Names(Fields(f, logo)))
  {
    var t := TextFields(f);
    TextOrderRanked();
    var fs := Fields(f, logo);
    var ns := Names(fs);
    assert |LogoFields(f, logo)| <= 1;
    forall i | 0 <= i < |ns| ensures Rank(ns[i]) == i {
      if i < |t| {
        assert fs[i] == t[i];
        assert ns[i] == TextPart(TextOrder[i]);
      } else {
        assert fs[i] == LogoFields(f, logo)[0];
      }
    }
    RankedDistinct(ns);
    var all := Names(fs + [(Id, Number(editingId))]);
    assert all == ns + [Id];
    forall i, j | 0 <= i < j < |all| ensures all[i] != all[j] {
      if j == |ns| {
        assert Rank(all[i]) < 16;
      } else {
        assert all[i] == ns[i] && all[j] == ns[j];
      }
    }
  }

  /** Every text part but the dates and the active flag is sent trimmed: it neither
      starts nor ends with white space.  The active flag is the word `true` or
      `false`. */
  lemma TextValuesTrimmed(f: CompanyForm, t: TextName)
    requires t != FinancialYearStart && t != FinancialYearEnd && t != IsActive
    ensures Trimmed(TextValue(f, t))
  {
    match t
    case CompanyCode => TrimFacts(f.companyCode);
    case Name => TrimFacts(f.name);
    case Address => TrimFacts(f.address);
    case Phone => TrimFacts(f.phone);
    case Email => TrimFacts(f.email);
    case Website => TrimFacts(f.website);
    case Pan => TrimFacts(f.pan);
    case Gstin => TrimFacts(f.gstin);
    case RegistrationNo => TrimFacts(f.registrationNo);
    case BaseCurrency => TrimFacts(f.baseCurrency);
    case CompanyType => TrimFacts(f.companyType);
    case IndustryType => TrimFacts(f.industryType);
  }

  datatype CompanyError = CodeAndNameRequired | InvalidEmail | NoEditPermission | NoAddPermission

  datatype CompanyRequest = UpdateCompany(editingId: nat, body: seq<(FieldName, FormValue)>)
                          | CreateCompany(body: seq<(FieldName, FormValue)>)

  /** The form checks of `handleSubmit`: a code and a name that are not blank, and an
      e-mail that is empty or has the shape of an address. */
  predicate PassesChecks(f: CompanyForm) {
    !IsBlank(f.companyCode) && !IsBlank(f.name) && (f.email == "" || EmailShape(f.email))
  }

  /** The permission the mode needs: `isEdit` while editing, `isAdd` otherwise. */
  predicate ModeAllowed(perms: Permissions, editingId: nat) {
    if editingId != 0 then perms.isEdit else perms.isAdd
  }

  /** `handleSubmit`: code and name, then the e-mail, then the permission the mode
      needs; an update also sends the id. */
  function Submit(f: CompanyForm, logo: Option<LogoFile>, editingId: nat, perms: Permissions): (r: Result<CompanyRequest, CompanyError>)
    ensures IsBlank(f.companyCode) || IsBlank(f.name) ==> r == Err(CodeAndNameRequired)
    ensures !IsBlank(f.companyCode) && !IsBlank(f.name) && f.email != "" && !EmailShape(f.email) ==>
              r == Err(InvalidEmail)
    ensures PassesChecks(f) && editingId != 0 && !perms.isEdit ==> r == Err(NoEditPermission)
    ensures PassesChecks(f) && editingId == 0 && !perms.isAdd ==> r == Err(NoAddPermission)
    ensures r.Ok? <==> PassesChecks(f) && ModeAllowed(perms, editingId)
    ensures r.Ok? && editingId != 0 ==> perms.isEdit && r.value == UpdateCompany(editingId, Fields(f, logo) + [(Id, Number(editingId))])
    ensures r.Ok? && editingId == 0 ==> perms.isAdd && r.value == CreateCompany(Fields(f, logo))
  {
    if IsBlank(f.companyCode) || IsBlank(f.name) then Err(CodeAndNameRequired)
    else if f.email != "" && !EmailShape(f.email) then Err(InvalidEmail)
    else if editingId != 0 then
      if !perms.isEdit then Err(NoEditPermission)
      else Ok(UpdateCompany(editingId, Fields(f, logo) + [(Id, Number(editingId))]))
    else
      if !perms.isAdd then Err(NoAddPermission)
      else Ok(CreateCompany(Fields(f, logo)))
  }

  /** The form is checked before the permission: a form with a missing code or name
      is reported as such even to a caller who may not save. */
  lemma FormBeforePermission(f: CompanyForm, logo: Option<LogoFile>, editingId: nat, perms: Permissions)
    ensures Submit(f, logo, editingId, perms).Err? <==>
      IsBlank(f.companyCode) || IsBlank(f.name) || (f.email != "" && !EmailShape(f.email))
      || (editingId != 0 && !perms.isEdit) || (editingId == 0 && !perms.isAdd)
    ensures Submit(f, logo, editingId, perms) in {Err(CodeAndNameRequired), Err(InvalidEmail)} <==> !PassesChecks(f)
  {
  }

  /** `s ? s.split('T')[0] : ''`: the text before the first `T`, all of it when there
      is none. */
  function DatePart(s: string): (r: string)
    ensures |r| <= |s| && r == s[..|r|]
    ensures forall k :: 0 <= k < |r| ==> r[k] != 'T'
    ensures |r| < |s| ==> s[|r|] == 'T'
  {
    if s == [] || s[0] == 'T' then []
    else [s[0]] + DatePart(s[1..])
  }

  lemma DatePartExample()
    ensures DatePart("2024-04-01T00:00:00") == "2024-04-01"
    ensures DatePart("2024-04-01") == "2024-04-01"
  {
    var d := "2024-04-01";
    assert "2024-04-01T00:00:00" == d + "T00:00:00";
    DatePartPrefix(d, "T00:00:00");
    DatePartPrefix(d, "");
    assert d + "" == d;
  }

  lemma {:induction false} DatePartPrefix(d: string, rest: string)
    requires forall k :: 0 <= k < |d| ==> d[k] != 'T'
    requires rest == [] || rest[0] == 'T'
    ensures DatePart(d + rest) == d
  {
    if d != [] {
      assert (d + rest)[1..] == d[1..] + rest;
      DatePartPrefix(d[1..], rest);
      assert [d[0]] + d[1..] == d;
    } else {
      assert d + rest == rest;
    }
  }

  /** Truncating a date twice is truncating it once. */
  lemma DatePartIdempotent(s: string)
    ensures DatePart(DatePart(s)) == DatePart(s)
  {
    var r := DatePart(s);
    DatePartPrefix(r, []);
    assert r + [] == r;
  }

  /** The record the server returns for one company; `None` for a missing property. */
  datatype CompanyData = CompanyData(
    id: nat, companyCode: Option<string>, name: Option<string>, address: Option<string>,
    phone: Option<string>, email: Option<string>, website: Option<string>, pan: Option<string>,
    gstin: Option<string>, registrationNo: Option<string>, financialYearStart: Option<string>,
    financialYearEnd: Option<string>, baseCurrency: Option<string>, companyType: Option<string>,
    industryType: Option<string>, logoPath: Option<string>, isActive: Option<bool>)

  /** The form `handleEdit` fills in: missing properties become "" (`?? ''`, whose
      meaning `OrEmpty` states), the flag active when missing, and the financial-year
      dates are cut at their time part. */
  function EditForm(d: CompanyData): (f: CompanyForm)
    ensures f.id == d.id
    ensures && f.companyCode == OrEmpty(d.companyCode) && f.name == OrEmpty(d.name)
            && f.address == OrEmpty(d.address) && f.phone == OrEmpty(d.phone) && f.email == OrEmpty(d.email)
            && f.website == OrEmpty(d.website) && f.pan == OrEmpty(d.pan) && f.gstin == OrEmpty(d.gstin)
            && f.registrationNo == OrEmpty(d.registrationNo) && f.baseCurrency == OrEmpty(d.baseCurrency)
            && f.companyType == OrEmpty(d.companyType) && f.industryType == OrEmpty(d.industryType)
            && f.logoPath == OrEmpty(d.logoPath)
    ensures f.financialYearStart == DatePart(OrEmpty(d.financialYearStart))
    ensures f.financialYearEnd == DatePart(OrEmpty(d.financialYearEnd))
    ensures d.isActive.None? ==> f.isActive
    ensures d.isActive.Some? ==> f.isActive == d.isActive.value
  {
    CompanyForm(d.id, OrEmpty(d.companyCode), OrEmpty(d.name), OrEmpty(d.address), OrEmpty(d.phone),
                OrEmpty(d.email), OrEmpty(d.website), OrEmpty(d.pan), OrEmpty(d.gstin),
                OrEmpty(d.registrationNo), DatePart(OrEmpty(d.financialYearStart)),
                DatePart(OrEmpty(d.financialYearEnd)), OrEmpty(d.baseCurrency), OrEmpty(d.companyType),
                OrEmpty(d.industryType), OrEmpty(d.logoPath),
                if d.isActive.Some? then d.isActive.value else true)
  }

  /** A record with every property missing loads as the initial form with its id. */
  lemma MissingRecordForm(id: nat)
    ensures EditForm(CompanyData(id, None, None, None, None, None, None, None, None, None, None, None, None,
                                 None, None, None, None)) == InitialForm.(id := id)
  {
  }

  /** The record the server stores for a body it was sent under `id`: the values as
      sent, the active flag as a boolean, and the stored logo path. */
  function Stored(f: CompanyForm, id: nat): CompanyData {
    CompanyData(id, Some(TextValue(f, CompanyCode)), Some(TextValue(f, Name)), Some(TextValue(f, Address)),
                Some(TextValue(f, Phone)), Some(TextValue(f, Email)), Some(TextValue(f, Website)),
                Some(TextValue(f, Pan)), Some(TextValue(f, Gstin)), Some(TextValue(f, RegistrationNo)),
                Some(f.financialYearStart), Some(f.financialYearEnd), Some(TextValue(f, BaseCurrency)),
                Some(TextValue(f, CompanyType)), Some(TextValue(f, IndustryType)), Some(f.logoPath),
                Some(f.isActive))
  }

  /** A date without a time part and an e-mail without white space come back from the
      server as they were sent. */
  predicate StoresVerbatim(f: CompanyForm) {
    && (forall k :: 0 <= k < |f.financialYearStart| ==> f.financialYearStart[k] != 'T')
    && (forall k :: 0 <= k < |f.financialYearEnd| ==> f.financialYearEnd[k] != 'T')
    && NoSpace(f.email)
  }

  lemma DatePartOfDate(s: string)
    requires forall k :: 0 <= k < |s| ==> s[k] != 'T'
    ensures DatePart(s) == s
  {
    DatePartPrefix(s, []);
    assert s + [] == s;
  }

  /** Each text part of a stored company, loaded back, is sent as before. */
  lemma StoredTextValue(f: CompanyForm, id: nat, t: TextName)
    requires StoresVerbatim(f)
    ensures TextValue(EditForm(Stored(f, id)), t) == TextValue(f, t)
  {
    match t
    case CompanyCode => TrimIdempotent(f.companyCode);
    case Name => TrimIdempotent(f.name);
    case Address => TrimIdempotent(f.address);
    case Phone => TrimIdempotent(f.phone);
    case Email => NoSpaceTrim(f.email);
    case Website => TrimIdempotent(f.website);
    case Pan => TrimIdempotent(f.pan);
    case Gstin => TrimIdempotent(f.gstin);
    case RegistrationNo => TrimIdempotent(f.registrationNo);
    case FinancialYearStart => DatePartOfDate(f.financialYearStart);
    case FinancialYearEnd => DatePartOfDate(f.financialYearEnd);
    case BaseCurrency => TrimIdempotent(f.baseCurrency);
    case CompanyType => TrimIdempotent(f.companyType);
    case IndustryType => TrimIdempotent(f.industryType);
    case IsActive =>
  }

  lemma StoredFields(f: CompanyForm, id: nat)
    requires StoresVerbatim(f)
    ensures Fields(EditForm(Stored(f, id)), None) == Fields(f, None)
  {
    var g := EditForm(Stored(f, id));
    forall i | 0 <= i < |TextOrder| ensures TextFields(g)[i] == TextFields(f)[i] {
      StoredTextValue(f, id, TextOrder[i]);
    }
    assert TextFields(g) == TextFields(f);
    assert LogoFields(g, None) == LogoFields(f, None);
  }

  /** Cleaning is stable: a company that was saved, loaded back for editing and saved
      again unchanged is sent with the body it was first sent with, as long as its
      dates had no time part. */
  lemma SaveLoadSave(f: CompanyForm, editingId: nat, perms: Permissions, id: nat)
    requires Submit(f, None, editingId, perms).Ok? && id != 0 && perms.isEdit
    requires forall k :: 0 <= k < |f.financialYearStart| ==> f.financialYearStart[k] != 'T'
    requires forall k :: 0 <= k < |f.financialYearEnd| ==> f.financialYearEnd[k] != 'T'
    ensures Submit(EditForm(Stored(f, id)), None, id, perms) == Ok(UpdateCompany(id, Fields(f, None) + [(Id, Number(id))]))
  {
    var g := EditForm(Stored(f, id));
    assert NoSpace(f.email);
    StoredFields(f, id);
    TrimIdempotent(f.companyCode);
    TrimIdempotent(f.name);
    StoredTextValue(f, id, Email);
    assert PassesChecks(g);
  }

  class CompanyPage {
    var form: CompanyForm
    var logoFile: Option<LogoFile>
    var logoPreview: string
    var editingId: nat
    var isModalOpen: bool
    var permissions: Permissions

    constructor (permissions: Permissions)
      ensures form == InitialForm && logoFile.None? && logoPreview == "" && editingId == 0
      ensures !isModalOpen && this.permissions == permissions
    {
      form := InitialForm;
      logoFile := None;
      logoPreview := "";
      editingId := 0;
      isModalOpen := false;
      this.permissions := permissions;
    }

    /** `resetForm`. */
    method ResetForm()
      modifies this
      ensures form == InitialForm && logoFile.None? && logoPreview == "" && editingId == 0
      ensures isModalOpen == old(isModalOpen) && permissions == old(permissions)
    {
      form := InitialForm;
      logoFile := None;
      logoPreview := "";
      editingId := 0;
    }

    /** `openCreate`: refused without `isAdd`. */
    method OpenCreate()
      modifies this
      ensures permissions == old(permissions)
      ensures permissions.isAdd ==> form == InitialForm && logoFile.None? && logoPreview == "" && editingId == 0 && isModalOpen
      ensures !permissions.isAdd ==> form == old(form) && editingId == old(editingId) && isModalOpen == old(isModalOpen)
                                     && logoFile == old(logoFile) && logoPreview == old(logoPreview)
    {
      if !permissions.isAdd {
        return;
      }
      ResetForm();
      isModalOpen := true;
    }

    /** `handleSubmit`: the body is built append by append; `saved` is whether the
        request succeeded, after which the form is reset and the dialog closed. */
    method HandleSubmit(saved: bool) returns (request: Result<CompanyRequest, CompanyError>)
      modifies this
      ensures request == Submit(old(form), old(logoFile), old(editingId), old(permissions))
      ensures permissions == old(permissions)
      ensures request.Ok? && saved ==>
                form == InitialForm && logoFile.None? && logoPreview == "" && editingId == 0 && !isModalOpen
      ensures !(request.Ok? && saved) ==>
                && form == old(form) && logoFile == old(logoFile) && logoPreview == old(logoPreview)
                && editingId == old(editingId) && isModalOpen == old(isModalOpen)
    {
      if IsBlank(form.companyCode) || IsBlank(form.name) {
        return Err(CodeAndNameRequired);
      }
      if form.email != "" && !EmailShape(form.email) {
        return Err(InvalidEmail);
      }
      var fd := BuildFormData(form, logoFile);
      if editingId != 0 {
        if !permissions.isEdit {
          return Err(NoEditPermission);
        }
        fd.Append(Id, Number(editingId));
        request := Ok(UpdateCompany(editingId, fd.entries));
      } else {
        if !permissions.isAdd {
          return Err(NoAddPermission);
        }
        request := Ok(CreateCompany(fd.entries));
      }
      if saved {
        ResetForm();
        isModalOpen := false;
      }
    }

    /** `handleEdit(id)`: refused without `isEdit`; `response` is the loaded record,
        `None` when the request failed or returned nothing. */
    method HandleEdit(response: Option<CompanyData>)
      modifies this
      ensures permissions == old(permissions)
      ensures permissions.isEdit && response.Some? && response.value.id != 0 ==>
                && form == EditForm(response.value) && logoFile.None?
                && logoPreview == OrEmpty(response.value.logoPath)
                && editingId == response.value.id && isModalOpen
      ensures !(permissions.isEdit && response.Some? && response.value.id != 0) ==>
                form == old(form) && editingId == old(editingId) && isModalOpen == old(isModalOpen)
                && logoFile == old(logoFile) && logoPreview == old(logoPreview)
    {
      if !permissions.isEdit || response.None? || response.value.id == 0 {
        return;
      }
      var data := response.value;
      form := EditForm(data);
      logoFile := None;
      logoPreview := OrEmpty(data.logoPath);
      editingId := data.id;
      isModalOpen := true;
    }

    /** `handleDelete(id)`: the delete request, or `None` without `isDelete`. */
    method HandleDelete(id: nat) returns (request: Option<nat>)
      ensures request.Some? <==> permissions.isDelete
      ensures request.Some? ==> request.value == id
    {
      request := if permissions.isDelete then Some(id) else None;
    }
  }
}
