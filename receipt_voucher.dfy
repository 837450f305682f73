/** The receipt-voucher page: an editable list of debit and credit rows, and the
    submission that validates the double entry, builds the request and checks the
    page permission.  Amounts are whole cents: every amount field passes through the
    two-decimal sanitiser, so a cent count holds it exactly. */
module ReceiptVoucher {
  import opened Common

  /** One ledger row.  `ledgerId` 0 stands for no ledger selected. */
  datatype Entry = Entry(id: nat, ledgerId: nat, debit: nat, credit: nat, lineNarration: string)

  const BlankEntry := Entry(0, 0, 0, 0, "")

  /** The voucher form.  `voucherDate` "" and `approvedOrVerifiedBy` 0 stand for a
      value not chosen yet. */
  datatype VoucherForm = VoucherForm(
    id: nat, voucherTypeId: nat, voucherNumber: string, voucherDate: string,
    referenceNo: string, narration: string, amount: nat, approvedOrVerifiedBy: nat,
    entries: seq<Entry>)

  /** The field of a row an input writes, with the value written. */
  datatype FieldChange =
    | LedgerId(ledgerId: nat)
    | DebitAmount(debit: nat)
    | CreditAmount(credit: nat)
    | LineNarration(text: string)

  datatype VoucherError =
    | MissingDate
    | MissingVerifier
    | NoEntries
    | TooFewEntries
    | InvalidLedger
    | MissingAmounts
    | Unbalanced(totalDebit: nat, totalCredit: nat)
    | NoEditPermission
    | NoAddPermission

  /** The body sent to the server: the form with its amount replaced by the total
      debit, and which button was pressed. */
  datatype Payload = Payload(form: VoucherForm, isSave: bool, isPost: bool)

  datatype Request = Update(editingId: nat, payload: Payload) | CreateVoucher(payload: Payload)

  // ---------------------------------------------------------------------------
  // Row edits
  // ---------------------------------------------------------------------------

  /** Row `index` with one field replaced. */
  function Apply(e: Entry, change: FieldChange): (r: Entry)
    ensures r.id == e.id
    ensures change.LedgerId? ==> r == e.(ledgerId := change.ledgerId)
    ensures change.DebitAmount? ==> r == e.(debit := change.debit)
    ensures change.CreditAmount? ==> r == e.(credit := change.credit)
    ensures change.LineNarration? ==> r == e.(lineNarration := change.text)
  {
    match change
    case LedgerId(v) => e.(ledgerId := v)
    case DebitAmount(v) => e.(debit := v)
    case CreditAmount(v) => e.(credit := v)
    case LineNarration(v) => e.(lineNarration := v)
  }

  /** `filter((_, i) => i !== index)`: every row but row `index`, in order.  An index
      past the end removes nothing. */
  function Without(es: seq<Entry>, index: nat): (r: seq<Entry>)
    ensures index < |es| ==> |r| == |es| - 1
    ensures index >= |es| ==> r == es
    ensures forall i :: 0 <= i < |r| ==> r[i] == (if i < index then es[i] else es[i + 1])
  {
    if index < |es| then es[..index] + es[index + 1..] else es
  }

  /** The page's form state and the handlers that edit its rows. */
  class VoucherEditor {
    var form: VoucherForm

    /** The form a new voucher starts with: one blank row. */
    constructor ()
      ensures form.entries == [BlankEntry] && form.voucherDate == "" && form.approvedOrVerifiedBy == 0
      ensures form.amount == 0 && form.id == 0
    {
      form := VoucherForm(0, 0, "", "", "", "", 0, 0, [BlankEntry]);
    }

    /** `handleLedgerChange(index, field, value)`: only the named field of row `index`
        changes. */
    method HandleLedgerChange(index: nat, change: FieldChange)
      requires index < |form.entries|
      modifies this
      ensures form == old(form).(entries := old(form.entries)[index := Apply(old(form.entries)[index], change)])
    {
      var updated := form.entries;
      updated := updated[index := Apply(updated[index], change)];
      form := form.(entries := updated);
    }

    /** `addLedgerRow`: one blank row appended. */
    method AddLedgerRow()
      modifies this
      ensures form == old(form).(entries := old(form.entries) + [BlankEntry])
    {
      form := form.(entries := form.entries + [BlankEntry]);
    }

    /** `removeLedgerRow(index)`. */
    method RemoveLedgerRow(index: nat)
      modifies this
      ensures form == old(form).(entries := Without(old(form.entries), index))
    {
      form := form.(entries := Without(form.entries, index));
    }
  }

  // ---------------------------------------------------------------------------
  // Totals
  // ---------------------------------------------------------------------------

  /** `entries.reduce((sum, e) => sum + e.debitAmount, 0)`. */
  function TotalDebit(es: seq<Entry>): nat {
    if es == [] then 0 else TotalDebit(es[..|es| - 1]) + es[|es| - 1].debit
  }

  /** `entries.reduce((sum, e) => sum + e.creditAmount, 0)`. */
  function TotalCredit(es: seq<Entry>): nat {
    if es == [] then 0 else TotalCredit(es[..|es| - 1]) + es[|es| - 1].credit
  }

  lemma {:induction false} TotalsConcat(a: seq<Entry>, b: seq<Entry>)
    ensures TotalDebit(a + b) == TotalDebit(a) + TotalDebit(b)
    ensures TotalCredit(a + b) == TotalCredit(a) + TotalCredit(b)
    decreases |b|
  {
    if b == [] {
      assert a + b == a;
    } else {
      TotalsConcat(a, b[..|b| - 1]);
      assert (a + b)[..|a + b| - 1] == a + b[..|b| - 1];
    }
  }

  /** A total is zero exactly when every row's amount on that side is zero, and
      no row's amount exceeds its side's total. */
  lemma {:induction false} TotalsBound(es: seq<Entry>)
    ensures forall i :: 0 <= i < |es| ==> es[i].debit <= TotalDebit(es) && es[i].credit <= TotalCredit(es)
    ensures TotalDebit(es) == 0 <==> forall i :: 0 <= i < |es| ==> es[i].debit == 0
    ensures TotalCredit(es) == 0 <==> forall i :: 0 <= i < |es| ==> es[i].credit == 0
  {
    if es != [] {
      var init := es[..|es| - 1];
      TotalsBound(init);
      assert forall i :: 0 <= i < |init| ==> es[i] == init[i];
    }
  }

  /** Adding a blank row leaves both totals alone. */
  lemma AddKeepsTotals(es: seq<Entry>)
    ensures TotalDebit(es + [BlankEntry]) == TotalDebit(es)
    ensures TotalCredit(es + [BlankEntry]) == TotalCredit(es)
  {
    TotalsConcat(es, [BlankEntry]);
  }

  /** The totals of a row list split around row `index`. */
  lemma TotalsAround(es: seq<Entry>, index: nat)
    requires index < |es|
    ensures TotalDebit(es) == TotalDebit(es[..index]) + es[index].debit + TotalDebit(es[index + 1..])
    ensures TotalCredit(es) == TotalCredit(es[..index]) + es[index].credit + TotalCredit(es[index + 1..])
  {
    var pre, post := es[..index], es[index + 1..];
    assert es == pre + ([es[index]] + post);
    TotalsConcat(pre, [es[index]] + post);
    TotalsConcat([es[index]], post);
    SingleTotals(es[index]);
  }

  /** Removing row `index` takes exactly its amounts off the totals. */
  lemma RemoveTotals(es: seq<Entry>, index: nat)
    requires index < |es|
    ensures TotalDebit(Without(es, index)) == TotalDebit(es) - es[index].debit
    ensures TotalCredit(Without(es, index)) == TotalCredit(es) - es[index].credit
  {
    TotalsAround(es, index);
    TotalsConcat(es[..index], es[index + 1..]);
  }

  lemma SingleTotals(e: Entry)
    ensures TotalDebit([e]) == e.debit && TotalCredit([e]) == e.credit
  {
    assert [e][..0] == [];
  }

  /** Changing one row's debit moves the debit total by the difference and leaves
      the credit total alone. */
  lemma ChangeDebitTotals(es: seq<Entry>, index: nat, v: nat)
    requires index < |es|
    ensures TotalDebit(es[index := Apply(es[index], DebitAmount(v))]) == TotalDebit(es) - es[index].debit + v
    ensures TotalCredit(es[index := Apply(es[index], DebitAmount(v))]) == TotalCredit(es)
  {
    var es' := es[index := Apply(es[index], DebitAmount(v))];
    TotalsAround(es, index);
    TotalsAround(es', index);
    assert es'[..index] == es[..index] && es'[index + 1..] == es[index + 1..];
  }

  /** Appending a row and then removing the last row gives back the rows. */
  lemma AddThenRemove(es: seq<Entry>)
    ensures Without(es + [BlankEntry], |es|) == es
  {
    assert (es + [BlankEntry])[..|es|] == es;
  }

  /** Writing a field back to the value it had restores the row. */
  lemma ChangeBack(e: Entry, change: FieldChange)
    ensures change.LedgerId? ==> Apply(Apply(e, change), LedgerId(e.ledgerId)) == e
    ensures change.DebitAmount? ==> Apply(Apply(e, change), DebitAmount(e.debit)) == e
    ensures change.CreditAmount? ==> Apply(Apply(e, change), CreditAmount(e.credit)) == e
    ensures change.LineNarration? ==> Apply(Apply(e, change), LineNarration(e.lineNarration)) == e
  {
  }

  // ---------------------------------------------------------------------------
  // Submission
  // ---------------------------------------------------------------------------

  predicate AllLedgersChosen(es: seq<Entry>) {
    forall i :: 0 <= i < |es| ==> es[i].ledgerId != 0
  }

  /** A date and a verifier are chosen. */
  predicate HasHeader(f: VoucherForm) {
    f.voucherDate != "" && f.approvedOrVerifiedBy != 0
  }

  /** The rules about rows that come before the amounts all pass. */
  predicate RowsComplete(f: VoucherForm) {
    HasHeader(f) && |f.entries| >= 2 && AllLedgersChosen(f.entries)
  }

  /** The validation chain of `handleSubmit`, stopping at the first rule that fails;
      on success the total debit, which is the voucher amount. */
  function Validate(f: VoucherForm): (r: Result<nat, VoucherError>)
    ensures f.voucherDate == "" ==> r == Err(MissingDate)
    ensures f.voucherDate != "" && f.approvedOrVerifiedBy == 0 ==> r == Err(MissingVerifier)
    ensures HasHeader(f) && |f.entries| == 0 ==> r == Err(NoEntries)
    ensures HasHeader(f) && |f.entries| == 1 ==> r == Err(TooFewEntries)
    ensures HasHeader(f) && |f.entries| >= 2 && !AllLedgersChosen(f.entries) ==> r == Err(InvalidLedger)
    ensures RowsComplete(f) && (TotalDebit(f.entries) == 0 || TotalCredit(f.entries) == 0) ==>
              r == Err(MissingAmounts)
    ensures RowsComplete(f) && TotalDebit(f.entries) > 0 && TotalCredit(f.entries) > 0
            && TotalDebit(f.entries) != TotalCredit(f.entries) ==>
              r == Err(Unbalanced(TotalDebit(f.entries), TotalCredit(f.entries)))
    ensures r.Ok? ==> r.value == TotalDebit(f.entries)
  {
    if f.voucherDate == "" then Err(MissingDate)
    else if f.approvedOrVerifiedBy == 0 then Err(MissingVerifier)
    else if |f.entries| == 0 then Err(NoEntries)
    else if |f.entries| < 2 then Err(TooFewEntries)
    else if !AllLedgersChosen(f.entries) then Err(InvalidLedger)
    else
      var debit, credit := TotalDebit(f.entries), TotalCredit(f.entries);
      if debit <= 0 || credit <= 0 then Err(MissingAmounts)
      else if debit != credit then Err(Unbalanced(debit, credit))
      else Ok(debit)
  }

  /** A form passes exactly when it has a date, a verifier, at least two rows, a
      ledger on every row, and equal positive totals. */
  lemma ValidIff(f: VoucherForm)
    ensures Validate(f).Ok? <==>
      && f.voucherDate != "" && f.approvedOrVerifiedBy != 0
      && |f.entries| >= 2
      && (forall i :: 0 <= i < |f.entries| ==> f.entries[i].ledgerId != 0)
      && TotalDebit(f.entries) == TotalCredit(f.entries) > 0
  {
  }

  /** An empty row list is reported by the one-entry rule, a single row by the
      two-entry rule; both only once date and verifier are present. */
  lemma FewEntriesReported(f: VoucherForm)
    requires f.voucherDate != "" && f.approvedOrVerifiedBy != 0
    ensures f.entries == [] ==> Validate(f) == Err(NoEntries)
    ensures |f.entries| == 1 ==> Validate(f) == Err(TooFewEntries)
  {
  }

  /** Rows of 100.00 debit and 50.00 credit are reported with both totals. */
  lemma ExampleUnbalanced()
    ensures Validate(VoucherForm(0, 1, "", "2024-04-01", "", "", 0, 7,
                                 [Entry(0, 1, 10000, 0, ""), Entry(0, 2, 0, 5000, "")]))
         == Err(Unbalanced(10000, 5000))
  {
    var es := [Entry(0, 1, 10000, 0, ""), Entry(0, 2, 0, 5000, "")];
    TotalsConcat([es[0]], [es[1]]);
    SingleTotals(es[0]);
    SingleTotals(es[1]);
    assert [es[0]] + [es[1]] == es;
  }

  /** A row without a ledger is refused even when the voucher balances. */
  lemma ExampleMissingLedger()
    ensures Validate(VoucherForm(0, 1, "", "2024-04-01", "", "", 0, 7,
                                 [Entry(0, 0, 10000, 0, ""), Entry(0, 2, 0, 10000, "")]))
         == Err(InvalidLedger)
  {
    var es := [Entry(0, 0, 10000, 0, ""), Entry(0, 2, 0, 10000, "")];
    assert es[0].ledgerId == 0;
  }

  /** `handleSubmit`: validation first, then the payload, then the permission the
      mode needs (`isEdit` when `editingId` is set, `isAdd` otherwise).  `action` is
      the value of the button pressed, `editingId` 0 stands for no voucher being
      edited. */
  function Submit(f: VoucherForm, action: string, editingId: nat, perms: Permissions): (r: Result<Request, VoucherError>)
    ensures Validate(f).Err? ==> r == Err(Validate(f).error)
    ensures Validate(f).Ok? && editingId != 0 && !perms.isEdit ==> r == Err(NoEditPermission)
    ensures Validate(f).Ok? && editingId == 0 && !perms.isAdd ==> r == Err(NoAddPermission)
    ensures r.Ok? ==>
      && Validate(f).Ok?
      && r.value.payload == Payload(f.(amount := TotalDebit(f.entries)), action == "save", action == "post")
      && (editingId != 0 ==> r.value == Update(editingId, r.value.payload) && perms.isEdit)
      && (editingId == 0 ==> r.value.CreateVoucher? && perms.isAdd)
  {
    match Validate(f)
    case Err(e) => Err(e)
    case Ok(total) =>
      var payload := Payload(f.(amount := total), action == "save", action == "post");
      if editingId != 0 then
        if !perms.isEdit then Err(NoEditPermission) else Ok(Update(editingId, payload))
      else
        if !perms.isAdd then Err(NoAddPermission) else Ok(CreateVoucher(payload))
  }

  /** A submitted voucher is balanced: at least two rows, every ledger chosen, and the
      amount sent equal to both totals. */
  lemma SubmittedIsBalanced(f: VoucherForm, action: string, editingId: nat, perms: Permissions)
    requires Submit(f, action, editingId, perms).Ok?
    ensures var p := Submit(f, action, editingId, perms).value.payload;
      && |p.form.entries| >= 2 && AllLedgersChosen(p.form.entries)
      && p.form.amount == TotalDebit(p.form.entries) == TotalCredit(p.form.entries) > 0
      && !(p.isSave && p.isPost)
  {
    ValidIff(f);
  }

  /** A fresh form cannot be submitted: it has no date, and after a date and a
      verifier its single blank row is still too few. */
  lemma FreshFormRejected(f: VoucherForm, date: string, verifier: nat, action: string, editingId: nat, perms: Permissions)
    requires f.entries == [BlankEntry] && date != "" && verifier != 0
    ensures f.voucherDate == "" ==> Submit(f, action, editingId, perms) == Err(MissingDate)
    ensures Submit(f.(voucherDate := date, approvedOrVerifiedBy := verifier), action, editingId, perms) == Err(TooFewEntries)
  {
  }
}
