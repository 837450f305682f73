/** The receipt-voucher list: each voucher row can be expanded to show its entries,
    which are fetched the first time and cached from then on; clicking a row makes
    it the active row, whose entries are the ones displayed. */
module ReceiptVoucherList {
  import opened Common

  /** One entry line as the list shows it.  Amounts are in cents. */
  datatype EntryLine = EntryLine(id: nat, ledgerName: string, debitAmount: int, creditAmount: int,
                                 lineNarration: string)

  /** The outcome of `GetVoucherEntriesById`: the request failed, or it returned a
      response whose `output` may be missing. */
  datatype Fetch = Failed | Loaded(output: Option<seq<EntryLine>>)

  /** `expandedRows`, `voucherEntries` and `activeRow` (`None` for `null`). */
  datatype ListState = ListState(expandedRows: map<nat, bool>, voucherEntries: map<nat, seq<EntryLine>>,
                                 activeRow: Option<nat>)

  const InitialState := ListState(map[], map[], None)

  /** `expandedRows[id]` is truthy. */
  predicate IsExpanded(s: ListState, id: nat) {
    id in s.expandedRows && s.expandedRows[id]
  }

  /** `voucherEntries[id]` is truthy: any array, the empty one included, counts as
      cached. */
  predicate IsCached(s: ListState, id: nat) {
    id in s.voucherEntries
  }

  /** Whether `toggleEntries(id)` sends a request. */
  predicate Fetches(s: ListState, id: nat) {
    !IsExpanded(s, id) && !IsCached(s, id)
  }

  /** `toggleEntries(id)`: an expanded voucher collapses; otherwise its entries are
      fetched unless cached (`output || []`), and it expands, except when the fetch
      fails, which changes nothing. */
  function Toggle(s: ListState, id: nat, fetch: Fetch): (t: ListState)
    ensures t.activeRow == s.activeRow
    ensures forall x :: x != id ==>
      (x in t.expandedRows <==> x in s.expandedRows) && (x in t.voucherEntries <==> x in s.voucherEntries)
    ensures forall x :: x != id && x in s.expandedRows ==> t.expandedRows[x] == s.expandedRows[x]
    ensures forall x :: x != id && x in s.voucherEntries ==> t.voucherEntries[x] == s.voucherEntries[x]
  {
    if IsExpanded(s, id) then s.(expandedRows := s.expandedRows[id := false])
    else if IsCached(s, id) then s.(expandedRows := s.expandedRows[id := true])
    else if fetch.Failed? then s
    else
      var lines := if fetch.output.Some? then fetch.output.value else [];
      s.(voucherEntries := s.voucherEntries[id := lines], expandedRows := s.expandedRows[id := true])
  }

  /** Collapsing never fetches and keeps the cache; expanding a cached voucher does
      not fetch either, whatever the fetch would have returned. */
  lemma ToggleCases(s: ListState, id: nat, fetch: Fetch)
    ensures IsExpanded(s, id) ==>
      var t := Toggle(s, id, fetch); !IsExpanded(t, id) && t.voucherEntries == s.voucherEntries
    ensures !IsExpanded(s, id) && IsCached(s, id) ==>
      var t := Toggle(s, id, fetch); IsExpanded(t, id) && t.voucherEntries == s.voucherEntries
    ensures Fetches(s, id) && fetch.Failed? ==> Toggle(s, id, fetch) == s
    ensures Fetches(s, id) && fetch.Loaded? ==>
      var t := Toggle(s, id, fetch);
      && IsExpanded(t, id) && IsCached(t, id)
      && t.voucherEntries[id] == (if fetch.output.Some? then fetch.output.value else [])
  {
  }

  /** Expand, collapse, expand: only the first toggle fetches, and the voucher ends
      expanded with the entries of that first fetch. */
  lemma ExpandCollapseExpand(s: ListState, id: nat, f1: Fetch, f2: Fetch, f3: Fetch)
    requires Fetches(s, id) && f1.Loaded?
    ensures var t1 := Toggle(s, id, f1);
      var t2 := Toggle(t1, id, f2);
      var t3 := Toggle(t2, id, f3);
      && !Fetches(t1, id) && !Fetches(t2, id)
      && !IsExpanded(t2, id) && IsExpanded(t3, id)
      && t3.voucherEntries == t1.voucherEntries
  {
  }

  /** Every expanded voucher has its entries cached. */
  ghost predicate ExpandedAreCached(s: ListState) {
    forall id :: IsExpanded(s, id) ==> IsCached(s, id)
  }

  /** `toggleEntries` keeps every expanded voucher cached. */
  lemma ToggleKeepsCached(s: ListState, id: nat, fetch: Fetch)
    requires ExpandedAreCached(s)
    ensures ExpandedAreCached(Toggle(s, id, fetch))
  {
    var t := Toggle(s, id, fetch);
    forall x | IsExpanded(t, x) ensures IsCached(t, x) {
      if x != id {
        assert IsExpanded(s, x);
      }
    }
  }

  /** The entries row of a voucher exists (`expandedRows[id] && voucherEntries[id]`). */
  predicate Rendered(s: ListState, id: nat) {
    IsExpanded(s, id) && IsCached(s, id)
  }

  /** The entries row is displayed: it exists and its row is the active row. */
  predicate Displayed(s: ListState, id: nat, index: nat) {
    Rendered(s, id) && s.activeRow == Some(index)
  }

  /** While every expanded voucher is cached, the entries row exists exactly for the
      expanded vouchers, and rows at two different positions are never displayed
      together. */
  lemma RenderedIffExpanded(s: ListState, id: nat, other: nat, i: nat, j: nat)
    requires ExpandedAreCached(s)
    ensures Rendered(s, id) <==> IsExpanded(s, id)
    ensures Displayed(s, id, i) && Displayed(s, other, j) ==> i == j
  {
  }

  /** A click on the row at `index`: it becomes the active row, or no row is active
      when it already was. */
  function SelectRow(activeRow: Option<nat>, index: nat): (r: Option<nat>)
    ensures r == Some(index) <==> activeRow != Some(index)
    ensures r.None? <==> activeRow == Some(index)
  {
    if activeRow == Some(index) then None else Some(index)
  }

  /** Two clicks on the same row undo each other when no other row was active. */
  lemma SelectRowTwice(activeRow: Option<nat>, index: nat)
    requires activeRow.None? || activeRow == Some(index)
    ensures SelectRow(SelectRow(activeRow, index), index) == activeRow
  {
  }

  /** A click on the entries button of the voucher at row `index`.  The button sits
      inside the row and the click is not stopped there, so the row's own handler runs
      after `toggleEntries`. */
  function ButtonClick(s: ListState, id: nat, index: nat, fetch: Fetch): (t: ListState)
    ensures t.activeRow == SelectRow(s.activeRow, index)
    ensures t.expandedRows == Toggle(s, id, fetch).expandedRows
    ensures t.voucherEntries == Toggle(s, id, fetch).voucherEntries
  {
    var u := Toggle(s, id, fetch);
    u.(activeRow := SelectRow(u.activeRow, index))
  }

  /** On the active row, a button click that expands a voucher also deactivates the
      row, so the entries it shows are hidden at once; on any other row they are
      shown. */
  lemma ButtonClickDisplays(s: ListState, id: nat, index: nat, fetch: Fetch)
    requires !IsExpanded(s, id) && (IsCached(s, id) || fetch.Loaded?)
    ensures var t := ButtonClick(s, id, index, fetch);
      && Rendered(t, id)
      && (Displayed(t, id, index) <==> s.activeRow != Some(index))
  {
  }

  class ReceiptVoucherListPage {
    var expandedRows: map<nat, bool>
    var voucherEntries: map<nat, seq<EntryLine>>
    var activeRow: Option<nat>

    function State(): ListState
      reads this
    {
      ListState(expandedRows, voucherEntries, activeRow)
    }

    constructor ()
      ensures State() == InitialState
    {
      expandedRows := map[];
      voucherEntries := map[];
      activeRow := None;
    }

    /** `toggleEntries(voucherId)`; `fetch` is what the entries request gives when it
        is made, and `fetched` says whether it was made. */
    method ToggleEntries(voucherId: nat, fetch: Fetch) returns (fetched: bool)
      modifies this
      ensures fetched == Fetches(old(State()), voucherId)
      ensures State() == Toggle(old(State()), voucherId, fetch)
    {
      fetched := false;
      if voucherId in expandedRows && expandedRows[voucherId] {
        expandedRows := expandedRows[voucherId := false];
      } else {
        if voucherId !in voucherEntries {
          fetched := true;
          if fetch.Failed? {
            return;
          }
          var lines := if fetch.output.Some? then fetch.output.value else [];
          voucherEntries := voucherEntries[voucherId := lines];
        }
        expandedRows := expandedRows[voucherId := true];
      }
    }

    /** A click on the entries button in the row at `index`: `toggleEntries`, then
        the row's click. */
    method ClickEntriesButton(voucherId: nat, index: nat, fetch: Fetch) returns (fetched: bool)
      modifies this
      ensures fetched == Fetches(old(State()), voucherId)
      ensures State() == ButtonClick(old(State()), voucherId, index, fetch)
    {
      fetched := ToggleEntries(voucherId, fetch);
      ClickRow(index);
    }

    /** A click on the row at `index`. */
    method ClickRow(index: nat)
      modifies this
      ensures activeRow == SelectRow(old(activeRow), index)
      ensures expandedRows == old(expandedRows) && voucherEntries == old(voucherEntries)
    {
      activeRow := if activeRow == Some(index) then None else Some(index);
    }
  }
}
