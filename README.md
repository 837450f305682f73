# Hoffstee ERP front end: the page logic, modelled in Dafny

This project models the client-side logic of the Hoffstee ERP web front end:

- **Utilities.**
  - `buildHierarchy` flattens a parent/child list into indented rows.
  - `convertLedgersForHierarchy` feeds it.
  - `allowTwoDecimals` sanitises amount input.
- **Form pages.** Ledgers, companies, voucher types, module pages, modules and sub-modules, and account groups. Each page:
  - validates its form;
  - cleans it into a request body;
  - checks the page permissions where the page does;
  - sends a create or an update;
  - resets or fills its form and dialog.
- **Receipt voucher.** The editor's debit/credit rows and its double-entry validation.
- **Role pages.** The role-permission matrix and the user-role assignment.
- **Receipt-voucher list.** Its expand/cache state.
- **Sidebar.** Its auto-expand search.

Modelling conventions:

- **Pure code becomes functions.** The flattener, the converter, the sanitiser, each page's validation and cleaning, and the maps a page edits are functions over datatypes.
- **Stateful code becomes classes.**
  - A page's React state (form, `editingId`, dialog flag, confirmation id, permissions) is a class whose methods are the event handlers.
  - Each handler's `ensures` ties its new state to the functions.
  - Where the source loops (the two `forEach` passes of `buildHierarchy`, the sidebar's three nested `for` loops, the company's `FormData` appends), the model is a method with that loop or that sequence of steps.
- **Server outcomes are parameters.**
  - `saved`, `deleted` and `fetch` say whether the request succeeded.
  - `response` is the record the server returned, or `None`.
  - The request a handler would send is its result.
- **Value encodings.**
  - `null` ids are 0.
  - `NaN` numbers are `None`.
  - A server property that may be missing is an `Option`.
  - Money is in whole cents.

What is proved, in brief:

- **Hierarchy.**
  - The flattener's output is exactly the records reachable from a root by parent links.
  - Each record is labelled with one `---` per level.
  - The output is in pre-order, siblings in input order.
  - Orphaned and cyclic branches are dropped.
  - On a forest with unique ids it always returns, with every record exactly once.
- **Sanitiser.** It returns the longest "clean" prefix of the filtered text (digits, at most one dot, at most two decimals), and it is idempotent.
- **Forms.**
  - Each form's accept decision is characterised exactly, and the error a form reports is that of the first check it fails.
  - Accepted bodies are trimmed and normalised.
  - Saving, loading back for editing and saving again sends the same body.
  - Each handler's `ensures` gives the new value of the fields it sets and says which stay as they were.
- **Receipt voucher.** A submitted voucher is balanced, and row edits move the totals exactly.
- **Role matrix.** Permission loading takes the first array the response holds. A saved matrix loads back cell for cell.
- **Sidebar.** The loop search returns the first matching module and sub-menu.

## Model

| member | source | states |
|---|---|---|
| HierarchyHelper.Indent | src/utils/hierarchyHelper.js:17-20 | the label prefix at depth `d` is `"---"` repeated `d` times: length `3d`, all dashes |
| HierarchyHelper.LastById | src/utils/hierarchyHelper.js:5-7 | the id table holds every record's id, each mapped to a record of the input carrying that id |
| HierarchyHelper.FileNodes | src/utils/hierarchyHelper.js:5-7 | the first loop files, under every id, the last record with that id and an empty child list |
| HierarchyHelper.LinkChildren | src/utils/hierarchyHelper.js:9-15 | the second loop appends each record with a parent to its parent's child list (when the parent is filed) and collects the rest as roots, in input order |
| HierarchyHelper.NodeTableWellFormed | src/utils/hierarchyHelper.js:5-15 | the built table files every node under its own id, every child id has a node, and every root is filed |
| HierarchyHelper.ChildIdsMember | src/utils/hierarchyHelper.js:10-11 | an id is among `p`'s children exactly when some record with that id names `p` (non-zero) as parent |
| HierarchyHelper.RootIdsMember | src/utils/hierarchyHelper.js:12-13 | an id is a root exactly when some record with that id has no parent (absent, null or 0) |
| HierarchyHelper.BuildTable | src/utils/hierarchyHelper.js:5-15 | both loops together build exactly the specified table and root list |
| HierarchyHelper.RowsOf | src/utils/hierarchyHelper.js:18-21 | the output rows are the visits' rows, in order |
| HierarchyHelper.BuildHierarchy | src/utils/hierarchyHelper.js:1-25 | table building then flattening from the roots gives exactly `Hierarchy(entities)` |
| HierarchyProperties.WalkRows | src/utils/hierarchyHelper.js:17-22 | each emitted row is at least as deep as its call, holds the filed record and children of its id, and is labelled `Indent(depth) + name`; a call over no ids emits nothing |
| HierarchyProperties.WalkSplit | src/utils/hierarchyHelper.js:18-21 | `flatMap` emits the first node, then its whole subtree, then the siblings' output |
| HierarchyProperties.WalkTopLevel | src/utils/hierarchyHelper.js:18-21 | the rows at a call's own depth are exactly the ids it was given, in order |
| HierarchyProperties.WalkBlocks | src/utils/hierarchyHelper.js:17-22 | the output is in pre-order: every row is followed by its descendants, whose top level is its children in order |
| HierarchyProperties.WalkVisitsIds | src/utils/hierarchyHelper.js:18-19 | every id a call is given is emitted at that call's depth |
| HierarchyProperties.WalkVisitsChildren | src/utils/hierarchyHelper.js:20 | every child of an emitted row is emitted later, one level deeper |
| HierarchyTheorems.RootedDepthBound | src/utils/hierarchyHelper.js:9-15 | a record's depth below a root is less than the number of distinct ids |
| HierarchyTheorems.WalkTerminates | src/utils/hierarchyHelper.js:17-22 | a walk from rooted ids returns once its bound is at least the number of records |
| HierarchyTheorems.WalkRooted | src/utils/hierarchyHelper.js:17-22 | every emitted row is reachable from a root by parent links, at its depth |
| HierarchyTheorems.WalkDistinct | src/utils/hierarchyHelper.js:17-22 | no record is emitted twice when no id is given twice |
| HierarchyTheorems.WalkVisitsAll | src/utils/hierarchyHelper.js:17-24 | all roots and all children of emitted rows are emitted |
| HierarchyTheorems.HierarchyShape | src/utils/hierarchyHelper.js:1-25 | when it returns: the top level is the roots in input order, the output is in pre-order, and each row holds its id's last record, that record's children and its depth label |
| HierarchyTheorems.HierarchyReturns | src/utils/hierarchyHelper.js:1-25 | with unique ids `buildHierarchy` always returns |
| HierarchyTheorems.HierarchyEmitsRooted | src/utils/hierarchyHelper.js:1-25 | with unique ids, a record is emitted exactly when a chain of parent links leads from it to a root |
| HierarchyTheorems.HierarchyLabelsDepth | src/utils/hierarchyHelper.js:19-20 | with unique ids, each row is labelled with one `---` per level between it and its root |
| HierarchyTheorems.OrphanBranchDropped | src/utils/hierarchyHelper.js:11 | with unique ids, a record whose parent id names no record is not emitted, and neither are its descendants |
| HierarchyTheorems.CycleBranchDropped | src/utils/hierarchyHelper.js:9-15 | with unique ids, a record on a cycle of parent links, or below one, is not emitted |
| HierarchyTheorems.CycleNotRooted | src/utils/hierarchyHelper.js:9-15 | no record on a parent cycle is reachable from a root |
| HierarchyTheorems.ForestEmitsEachOnce | src/utils/hierarchyHelper.js:1-25 | on a forest with unique ids the output has exactly one row per record, every record appears, and no id repeats |
| HierarchyExamples.ParentChildSibling | src/utils/hierarchyHelper.js:1-25 | two roots, the first with a child: rows `A`, `---B`, `C` |
| HierarchyExamples.SharedIdLoops | src/utils/hierarchyHelper.js:5-11 | two records share an id and the later names it as parent: the flattener does not return |
| HierarchyExamples.SelfParentDropped | src/utils/hierarchyHelper.js:9-15 | a record that is its own parent yields no rows |
| ParentConversion.ParentOf | src/utils/parentConvertionHelper.js:5 | the parent is the named column's value, or 0 exactly when the column is undefined, null or 0 |
| ParentConversion.Convert | src/utils/parentConvertionHelper.js:1-7 | one record per row, same order, id and name copied, parent from the named column, no other property |
| ParentConversion.ConvertExport | src/utils/parentConvertionHelper.js:1-7 | converting exported records gives back the records, stripped of other properties |
| ParentConversion.ConvertKeepsIds | src/utils/parentConvertionHelper.js:3 | converted ids are unique exactly when the rows' ids are |
| ParentConversion.ConvertedRoots | src/utils/parentConvertionHelper.js:5 | a converted row is a hierarchy root exactly when its parent column is missing, null or 0 |
| InputUtils.Filter | src/utils/inputUtils.js:4 | removing non-decimal characters keeps only `[0-9.]`, leaves decimal text unchanged, and keeps a single character exactly when it is decimal |
| InputUtils.FilterConcat | src/utils/inputUtils.js:4 | the global replace works character by character: filtering a concatenation concatenates the filtered parts |
| InputUtils.Split | src/utils/inputUtils.js:7 | `split(".")` yields dot-free runs, at least one |
| InputUtils.JoinSplit | src/utils/inputUtils.js:7 | joining the split runs with dots gives back the text |
| InputUtils.SplitJoin | src/utils/inputUtils.js:7 | splitting joined dot-free runs gives back the runs |
| InputUtils.LongestCleanPrefix | src/utils/inputUtils.js:1-18 | the result is the longest prefix of the filtered text with at most one dot and at most two decimals |
| InputUtils.CleanPrefix | src/utils/inputUtils.js:8-15 | every prefix of a clean text is clean, so that longest prefix is unique |
| InputUtils.FixedPoints | src/utils/inputUtils.js:1-18 | the sanitiser leaves a text unchanged exactly when it is already clean |
| InputUtils.Idempotent | src/utils/inputUtils.js:1-18 | sanitising twice is sanitising once |
| InputUtils.EmptyResults | src/utils/inputUtils.js:2 | empty input, or input without decimal characters, gives "" |
| InputUtils.FilterDropsPrefix | src/utils/inputUtils.js:4 | characters outside `[0-9.]` in front of clean text are all removed and the clean text is kept |
| InputUtils.ShortFraction | src/utils/inputUtils.js:7-17 | an integer part with a fraction of at most two digits passes unchanged |
| InputUtils.LongFraction | src/utils/inputUtils.js:13-15 | a fraction longer than two digits is cut to its first two |
| InputUtils.SecondDot | src/utils/inputUtils.js:8-10 | with a second dot, only the integer part and the first fraction are kept |
| InputUtils.ExampleLongFraction | src/utils/inputUtils.js:13-15 | `12.345` becomes `12.34` |
| InputUtils.ExampleSecondDot | src/utils/inputUtils.js:8-10 | `12.3.4` becomes `12.3` |
| InputUtils.ExampleLetters | src/utils/inputUtils.js:4 | `abc12.5` becomes `12.5` |
| InputUtils.HandleDecimalPaste | src/utils/inputUtils.js:23-28 | pasted text is replaced by its sanitised, clean prefix |
| Common.TrimFacts | src/pages/Company.js:142-155 | `trim()` keeps the infix left after dropping white space on both sides; the result neither starts nor ends with white space |
| Common.TrimIdempotent | src/pages/Company.js:142-155 | trimming twice is trimming once |
| Common.BlankIffAllSpace | src/pages/LedgersPage.js:94 | `!s.trim()` holds exactly when every character is white space |
| Common.EmailShapeMatchesRegex | src/pages/Company.js:135 | the e-mail check accepts exactly the language of `^\S+@\S+\.\S+$` |
| Common.PositivePriority | src/pages/ModulesPage.js:78-81 | the sent priority is the entered one when positive, otherwise 1 |
| ReceiptVoucher.Apply | src/pages/ReceiptVoucher.js:147-151 | a row edit replaces exactly the named field |
| ReceiptVoucher.Without | src/pages/ReceiptVoucher.js:165-168 | removing row `i` keeps every other row in order; an index past the end removes nothing |
| ReceiptVoucher.VoucherEditor.constructor | src/pages/ReceiptVoucher.js:24-36 | a new voucher has one blank row, no date, no verifier |
| ReceiptVoucher.VoucherEditor.HandleLedgerChange | src/pages/ReceiptVoucher.js:147-151 | only the named field of row `index` changes |
| ReceiptVoucher.VoucherEditor.AddLedgerRow | src/pages/ReceiptVoucher.js:154-162 | one blank row is appended, nothing else changes |
| ReceiptVoucher.VoucherEditor.RemoveLedgerRow | src/pages/ReceiptVoucher.js:165-168 | the row list loses row `index`, nothing else changes |
| ReceiptVoucher.TotalsConcat | src/pages/ReceiptVoucher.js:201-208 | the totals are additive over concatenation |
| ReceiptVoucher.TotalsBound | src/pages/ReceiptVoucher.js:201-208 | no row's amount exceeds its side's total, and a total is zero exactly when every row's amount on that side is zero |
| ReceiptVoucher.AddKeepsTotals | src/pages/ReceiptVoucher.js:154-162 | adding a blank row leaves both totals alone |
| ReceiptVoucher.RemoveTotals | src/pages/ReceiptVoucher.js:165-168 | removing a row takes exactly its amounts off the totals |
| ReceiptVoucher.ChangeDebitTotals | src/pages/ReceiptVoucher.js:147-151 | changing a debit moves the debit total by the difference and leaves the credit total alone |
| ReceiptVoucher.AddThenRemove | src/pages/ReceiptVoucher.js:154-168 | adding a row then removing the last row restores the rows |
| ReceiptVoucher.ChangeBack | src/pages/ReceiptVoucher.js:147-151 | writing back a field's old value restores the row |
| ReceiptVoucher.Validate | src/pages/ReceiptVoucher.js:175-218 | each rule's error when the earlier rules pass: no date, no verifier, no rows, one row, a row without a ledger, a zero total, then unequal totals reported with both totals; on success the voucher amount is the total debit |
| ReceiptVoucher.ExampleUnbalanced | src/pages/ReceiptVoucher.js:201-218 | rows of 100.00 debit and 50.00 credit are refused as unbalanced with totals 100.00 and 50.00 |
| ReceiptVoucher.ExampleMissingLedger | src/pages/ReceiptVoucher.js:192-199 | a balanced voucher with a row lacking a ledger is refused for the ledger |
| ReceiptVoucher.ValidIff | src/pages/ReceiptVoucher.js:175-218 | a form passes exactly when it has a date, a verifier, at least two rows, a ledger on each, and equal positive totals |
| ReceiptVoucher.FewEntriesReported | src/pages/ReceiptVoucher.js:185-193 | no rows hits the one-entry rule, a single row the two-entry rule |
| ReceiptVoucher.Submit | src/pages/ReceiptVoucher.js:171-247 | validation errors first, then the permission the mode needs; the body carries `amount = totalDebit` and the pressed button |
| ReceiptVoucher.SubmittedIsBalanced | src/pages/ReceiptVoucher.js:175-231 | a sent voucher has at least two rows, every ledger chosen, and its amount equal to both positive totals |
| ReceiptVoucher.FreshFormRejected | src/pages/ReceiptVoucher.js:24-36 | a fresh form is refused for its date, and after a date and verifier for too few rows |
| RolePermissions.Allows | src/pages/UserRolePermissions.js:116 | `pagePermissions["is" + action]` reads that action's flag, for each of the six actions |
| RolePermissions.FirstPresentIsFirst | src/pages/UserRolePermissions.js:95 | `??` chains yield a value exactly when one is present, and then the first one |
| RolePermissions.PermsArrayIsFirstCandidate | src/pages/UserRolePermissions.js:76-84 | the records array is the first array in the order `page`, `pages`, `output.page`, `output`, `data`, `data.page`, the body itself; otherwise none |
| RolePermissions.FlagSpellings | src/pages/UserRolePermissions.js:99-104 | a flag reads the first present spelling in the order `add`, `Add`, `isAdd`, `IsAdd`, each case stated, false when none is |
| RolePermissions.WriteRowCells | src/pages/UserRolePermissions.js:98-105 | writing one page's row sets its six cells and no other |
| RolePermissions.BlankCells | src/pages/UserRolePermissions.js:86-92 | every listed page starts with all cells unchecked, and no other page is touched |
| RolePermissions.OverwriteUntouched | src/pages/UserRolePermissions.js:94-106 | a page no record names keeps its cells |
| RolePermissions.OverwriteLast | src/pages/UserRolePermissions.js:94-106 | a named page's cell holds the flag of the last record naming it |
| RolePermissions.RoleMatrixCells | src/pages/UserRolePermissions.js:86-106 | after a role change, unnamed pages are unchecked and named pages hold their last record's flags |
| RolePermissions.SkipsRecordWithoutId | src/pages/UserRolePermissions.js:95-96 | a record without a page id changes nothing |
| RolePermissions.Toggle | src/pages/UserRolePermissions.js:118-124 | one cell flips and every other cell stays |
| RolePermissions.SetColumnCells | src/pages/UserRolePermissions.js:131-136 | select-all sets one column for every listed page and nothing else |
| RolePermissions.ToggleTwice | src/pages/UserRolePermissions.js:115-125 | toggling a cell twice restores every cell |
| RolePermissions.SelectAllFlips | src/pages/UserRolePermissions.js:127-142 | after select-all the column is fully selected exactly when it was not before |
| RolePermissions.SelectAllTogglesHeader | src/pages/UserRolePermissions.js:127-142 | with pages listed, select-all flips the header's fully-selected state; with none the header stays unselected |
| RolePermissions.Items | src/pages/UserRolePermissions.js:157-166 | one saved item per page, in page order, with the page id, its sub-module id and each of the six flags the page's cell |
| RolePermissions.Save | src/pages/UserRolePermissions.js:144-167 | refused without `isEdit`, then without a role; otherwise the role and the items |
| RolePermissions.ItemFlags | src/pages/UserRolePermissions.js:160-165 | each saved flag reads back as the cell it came from |
| RolePermissions.SaveLoadRoundTrip | src/pages/UserRolePermissions.js:86-167 | saving the matrix and loading the items back gives every listed page its cells |
| RolePermissions.RolePermissionsPage.constructor | src/pages/UserRolePermissions.js:19-30 | no role selected and an empty matrix |
| RolePermissions.RolePermissionsPage.HandleRoleChange | src/pages/UserRolePermissions.js:66-113 | the role is selected and the matrix cleared; for a role whose load succeeds the matrix is built from the first records array |
| RolePermissions.RolePermissionsPage.TogglePermission | src/pages/UserRolePermissions.js:115-125 | refused without the action's page permission, otherwise one cell flips |
| RolePermissions.RolePermissionsPage.ToggleSelectAll | src/pages/UserRolePermissions.js:127-139 | refused without the permission, otherwise the column becomes the negation of "all checked" and the header's state flips |
| RolePermissions.RolePermissionsPage.IsActionFullySelected | src/pages/UserRolePermissions.js:141-142 | the header is checked exactly when pages are listed and every page's cell in that column is checked |
| UserRoles.RemoveAll | src/pages/UserRolesPage.js:161 | filtering removes every copy of the role and keeps the rest; a one-element list is emptied exactly when it is the role |
| UserRoles.RemoveAllConcat | src/pages/UserRolesPage.js:161 | the filter keeps order and multiplicity: filtering a concatenation concatenates the filtered parts |
| UserRoles.ToggleRole | src/pages/UserRolesPage.js:157-164 | a selected role is removed with every copy, others keeping their order; an unselected one is appended; other roles stay |
| UserRoles.ToggleTwiceAbsent | src/pages/UserRolesPage.js:157-164 | toggling an unselected role twice restores the list |
| UserRoles.ToggleKeepsDistinct | src/pages/UserRolesPage.js:157-164 | a list without repeats stays without repeats |
| UserRoles.Submit | src/pages/UserRolesPage.js:76-101 | the mode's permission first (`NoAddPermission` or `NoEditPermission`), then the user, then at least one role; accepted exactly when all hold, with body `{userId, RoleId}` |
| UserRoles.PermissionFirst | src/pages/UserRolesPage.js:79-92 | a missing permission is reported whatever the form holds, and a form error only once the permission is there |
| UserRoles.UserRolesPage.constructor | src/pages/UserRolesPage.js:23-30 | an empty form, nothing edited, dialog closed, the given permissions |
| UserRoles.UserRolesPage.ToggleRoleSelection | src/pages/UserRolesPage.js:157-164 | only the role list changes |
| UserRoles.UserRolesPage.HandleSubmit | src/pages/UserRolesPage.js:76-114 | the request is `Submit` of the old state; a saved request empties the form and closes the dialog |
| UserRoles.UserRolesPage.HandleEdit | src/pages/UserRolesPage.js:116-140 | refused without `isEdit` or a user id; otherwise the form is loaded and the dialog opened |
| Ledgers.BalanceType | src/pages/LedgersPage.js:115 | `Credit` and `C` become `C`, anything else `D` |
| Ledgers.Submit | src/pages/LedgersPage.js:89-138 | name, group, e-mail and phone are checked in that order, each error stated once the earlier checks pass; the body is the normalised form |
| Ledgers.SubmitOkIff | src/pages/LedgersPage.js:94-121 | accepted exactly with a non-space name character, a group, and a filled e-mail and phone matching their patterns |
| Ledgers.PayloadKeepsValues | src/pages/LedgersPage.js:106-130 | the body copies every form field (id, group, name, alias, details, e-mail, phone, active flag), maps the balance type, sends an empty balance or parent as 0 and a chosen one as it is, and blanks both display names |
| Ledgers.EditForm | src/pages/LedgersPage.js:157-177 | each property is kept when present; a missing one takes the initial form's default (empty texts and details, `D` balance type, no group, parent or balance, active) |
| Ledgers.EditDetails | src/pages/LedgersPage.js:167-173 | each of the seven bank and tax details is the stored text, or "" when missing |
| Ledgers.MissingRecordForm | src/pages/LedgersPage.js:157-177 | a record with only an id loads as the initial form with that id |
| Ledgers.EditThenSubmit | src/pages/LedgersPage.js:89-184 | a loaded valid ledger saved unchanged is an update of that ledger whose body holds every loaded value, the `??` defaults applied, the balance type mapped and the display names blank |
| Ledgers.LedgersPage.constructor | src/pages/LedgersPage.js:18-38 | the initial form, nothing edited, dialog closed |
| Ledgers.LedgersPage.ResetForm | src/pages/LedgersPage.js:84-87 | the initial form and no ledger being edited |
| Ledgers.LedgersPage.OpenCreate | src/pages/LedgersPage.js:79-82 | a fresh form in an open dialog |
| Ledgers.LedgersPage.HandleSubmit | src/pages/LedgersPage.js:89-147 | the request is `Submit` of the old state; a saved request resets the form and closes the dialog, anything else changes nothing |
| Ledgers.LedgersPage.HandleEdit | src/pages/LedgersPage.js:149-184 | a loaded record with an id fills the form and opens the dialog; otherwise nothing changes |
| Company.LogoFields | src/pages/Company.js:158-162 | the picked file, else the non-empty stored path, else nothing |
| Company.FormData.Append | src/pages/Company.js:141-162 | one part is appended |
| Company.AppendContact | src/pages/Company.js:142-146 | the first five parts are appended in order |
| Company.AppendRegistration | src/pages/Company.js:147-151 | the next five parts are appended in order |
| Company.AppendSettings | src/pages/Company.js:152-156 | the last five text parts are appended in order |
| Company.BuildFormData | src/pages/Company.js:141-162 | the body holds the fifteen text parts in order, then the logo part |
| Company.FieldNamesDistinct | src/pages/Company.js:141-169 | no part name is sent twice, the edited id included, and never both the file and the stored path |
| Company.TextValuesTrimmed | src/pages/Company.js:142-155 | every text part but the dates and the active flag is sent without surrounding white space |
| Company.Submit | src/pages/Company.js:128-178 | code and name, then the e-mail, then the mode's permission, each error stated once the earlier checks pass; accepted exactly when all pass; an update appends the id |
| Company.FormBeforePermission | src/pages/Company.js:131-175 | a form error is reported exactly when a form check fails, whatever the permissions |
| Company.DatePart | src/pages/Company.js:213-214 | a date keeps the text before its first `T` |
| Company.DatePartPrefix | src/pages/Company.js:213-214 | a date followed by a time part loses exactly the time part |
| Company.DatePartIdempotent | src/pages/Company.js:213-214 | truncating a date twice is truncating once |
| Company.EditForm | src/pages/Company.js:202-219 | every text is the stored one or "", the two dates are the stored dates without their time part, and a missing active flag reads as active |
| Company.MissingRecordForm | src/pages/Company.js:202-219 | a record with only an id loads as the initial form with that id |
| Company.StoredTextValue | src/pages/Company.js:142-155 | loading back what was sent gives each text part the value it was sent with |
| Company.StoredFields | src/pages/Company.js:141-219 | the parts of a loaded-back form are those of the form that was sent |
| Company.SaveLoadSave | src/pages/Company.js:128-219 | a company saved without a new logo, loaded back and saved again sends the same update |
| Company.CompanyPage.constructor | src/pages/Company.js:20-38 | the initial form, no logo, nothing edited, dialog closed |
| Company.CompanyPage.ResetForm | src/pages/Company.js:103-111 | the initial form, no logo or preview, nothing edited |
| Company.CompanyPage.OpenCreate | src/pages/Company.js:94-111 | refused without `isAdd`; otherwise a fresh form, no logo and an empty preview, in an open dialog |
| Company.CompanyPage.HandleSubmit | src/pages/Company.js:128-187 | the request is `Submit` of the old state; a saved request resets the page and empties the preview, anything else keeps the preview |
| Company.CompanyPage.HandleEdit | src/pages/Company.js:189-231 | refused without `isEdit` or an id; otherwise the form is loaded and the dialog opened |
| Company.CompanyPage.HandleDelete | src/pages/Company.js:235-249 | a delete request exactly with `isDelete` |
| VoucherTypes.StartingNumber | src/pages/VoucherTypesPage.js:94-96 | a number is sent as it is, `NaN` as 1 |
| VoucherTypes.Submit | src/pages/VoucherTypesPage.js:80-107 | accepted exactly with a code, a name and at least one role; an update when editing |
| VoucherTypes.PayloadKeepsForm | src/pages/VoucherTypesPage.js:92-98 | the body keeps every form field as typed, the starting number normalised |
| VoucherTypes.NonPositiveStartSent | src/pages/VoucherTypesPage.js:94-96 | a zero or negative starting number is sent as it is |
| VoucherTypes.OrText | src/pages/VoucherTypesPage.js:144-156 | `v \|\| d`: a missing or empty text falls back to the default |
| VoucherTypes.OrNoRole | src/pages/VoucherTypesPage.js:144-156 | a missing or zero role id is no role |
| VoucherTypes.EditForm | src/pages/VoucherTypesPage.js:144-156 | texts default with `\|\|` (code, name, prefix and suffix to ""), the starting number and flag with `??` |
| VoucherTypes.MissingRecordForm | src/pages/VoucherTypesPage.js:144-156 | a record with only an id loads as the initial form with that id |
| VoucherTypes.DefaultsDiffer | src/pages/VoucherTypesPage.js:144-156 | an empty category reads as `Accounts`, a stored 0 or inactive flag is kept |
| VoucherTypes.EditThenSubmit | src/pages/VoucherTypesPage.js:80-163 | a loaded voucher type with a role, saved unchanged, is an update with its stored values |
| VoucherTypes.SelectRole | src/pages/VoucherTypesPage.js:266-269 | the empty option clears the role |
| VoucherTypes.VoucherTypesPage.constructor | src/pages/VoucherTypesPage.js:21-31 | the initial form, nothing edited, dialog closed |
| VoucherTypes.VoucherTypesPage.OpenCreate | src/pages/VoucherTypesPage.js:183-184 | the dialog opens only with `isAdd`, on the current form |
| VoucherTypes.VoucherTypesPage.SelectApprovedBy | src/pages/VoucherTypesPage.js:266-269 | only the approving role changes |
| VoucherTypes.VoucherTypesPage.SelectVerifiedBy | src/pages/VoucherTypesPage.js:281-284 | only the verifying role changes |
| VoucherTypes.VoucherTypesPage.ResetForm | src/pages/VoucherTypesPage.js:116-132 | the defaults, nothing edited, dialog closed |
| VoucherTypes.VoucherTypesPage.HandleSubmit | src/pages/VoucherTypesPage.js:80-114 | the request is `Submit` of the old state; a saved request resets the page |
| VoucherTypes.VoucherTypesPage.HandleEdit | src/pages/VoucherTypesPage.js:134-163 | a loaded record with an id fills the form and opens the dialog |
| ModuleAddPages.Submit | src/pages/ModuleAddPages.js:64-98 | name and URL, then module, then sub-module; accepted exactly when all four are present |
| ModuleAddPages.AcceptedPayloadClean | src/pages/ModuleAddPages.js:80-89 | an accepted body has non-empty trimmed texts, a positive priority and both ids |
| ModuleAddPages.EditForm | src/pages/ModuleAddPages.js:132-141 | texts default to "", a stored priority, module, sub-module and status are kept, a missing priority is 1, the display names are empty |
| ModuleAddPages.MissingRecordForm | src/pages/ModuleAddPages.js:132-141 | a record with only an id loads as the initial form with that id |
| ModuleAddPages.SaveLoadSave | src/pages/ModuleAddPages.js:64-150 | saving, loading back and saving again sends the same body |
| ModuleAddPages.ModuleAddPagesPage.constructor | src/pages/ModuleAddPages.js:23-34 | the initial form, nothing edited, dialog closed |
| ModuleAddPages.ModuleAddPagesPage.OpenCreate | src/pages/ModuleAddPages.js:170 | the dialog opens on the current form |
| ModuleAddPages.ModuleAddPagesPage.CloseDialog | src/pages/ModuleAddPages.js:176-189 | closing empties the form and ends editing |
| ModuleAddPages.ModuleAddPagesPage.SelectModule | src/pages/ModuleAddPages.js:207 | only the module id changes |
| ModuleAddPages.ModuleAddPagesPage.SelectSubModule | src/pages/ModuleAddPages.js:218 | only the sub-module id changes |
| ModuleAddPages.ModuleAddPagesPage.HandleSubmit | src/pages/ModuleAddPages.js:64-119 | the request is `Submit` of the old state; a saved request resets the page |
| ModuleAddPages.ModuleAddPagesPage.HandleEdit | src/pages/ModuleAddPages.js:121-150 | a loaded record with an id fills the form and opens the dialog |
| ModulesPages.Submit | src/pages/ModulesPage.js:65-99 | accepted exactly with a name, a code and the mode's permission; an update when editing |
| ModulesPages.RefusalAfterValidation | src/pages/ModulesPage.js:68-99 | a permission refusal happens only for a valid form, for its mode's permission |
| ModulesPages.AcceptedPayloadClean | src/pages/ModulesPage.js:73-82 | an accepted body has a non-empty trimmed name and code and a positive priority |
| ModulesPages.EditForm | src/pages/ModulesPage.js:122-128 | name and code default to "", so a record missing either loads as a form that is refused; a stored priority and status are kept, a missing priority is 1 |
| ModulesPages.MissingRecordForm | src/pages/ModulesPage.js:122-128 | a record with only an id loads as the initial form with that id |
| ModulesPages.SaveLoadSave | src/pages/ModulesPage.js:65-135 | saving, loading back and saving again sends the same body |
| ModulesPages.EntriesPage.constructor | src/pages/ModulesPage.js:20-26 | the initial form, nothing edited, dialog closed |
| ModulesPages.EntriesPage.OpenCreate | src/pages/ModulesPage.js:171-172 | the dialog opens only with `isAdd` |
| ModulesPages.EntriesPage.ResetForm | src/pages/ModulesPage.js:154-164 | the defaults, nothing edited, dialog closed |
| ModulesPages.EntriesPage.HandleSubmit | src/pages/SubModulesPage.js:66-107 | the request is `Submit` of the old state; a saved request resets the page, a refusal changes nothing |
| ModulesPages.EntriesPage.HandleEdit | src/pages/SubModulesPage.js:109-136 | refused without `isEdit` or an id; otherwise the form is loaded and the dialog opened |
| ModulesPages.EntriesPage.HandleDeleteRequest | src/pages/ModulesPage.js:137 | the confirmation is asked for that id |
| ModulesPages.EntriesPage.HandleDelete | src/pages/ModulesPage.js:139-152 | a delete request exactly with `isDelete`; a success closes the confirmation |
| AccountGroups.SentParent | src/pages/AccountGroupsPage.js:68 | no parent and parent 0 are both sent as `null` |
| AccountGroups.Submit | src/pages/AccountGroupsPage.js:45-78 | name, nature, then net effect; accepted exactly when all three are present |
| AccountGroups.AcceptedPayloadClean | src/pages/AccountGroupsPage.js:61-69 | an accepted body has a non-empty trimmed name, a trimmed alias, the chosen nature and net effect, and no parent 0 |
| AccountGroups.EditForm | src/pages/AccountGroupsPage.js:98-106 | name, alias, nature and net effect default to "", a stored active flag is kept and a missing one is true, the parent is kept as stored |
| AccountGroups.MissingRecordForm | src/pages/AccountGroupsPage.js:98-106 | a record with only an id loads as the initial form with that id |
| AccountGroups.ZeroParentSentAsNull | src/pages/AccountGroupsPage.js:68-102 | a group stored with parent 0 is loaded with 0 but saved with no parent |
| AccountGroups.SaveLoadSave | src/pages/AccountGroupsPage.js:45-114 | saving, loading back and saving again sends the same body |
| AccountGroups.AccountGroupsPage.constructor | src/pages/AccountGroupsPage.js:18-26 | the initial form, nothing edited, dialog closed |
| AccountGroups.AccountGroupsPage.OpenCreate | src/pages/AccountGroupsPage.js:148 | the dialog opens on the current form |
| AccountGroups.AccountGroupsPage.SelectParent | src/pages/AccountGroupsPage.js:190-195 | only the parent changes; the "select" option clears it |
| AccountGroups.AccountGroupsPage.ResetForm | src/pages/AccountGroupsPage.js:131-143 | the defaults, nothing edited, dialog closed |
| AccountGroups.AccountGroupsPage.HandleSubmit | src/pages/AccountGroupsPage.js:45-86 | the request is `Submit` of the old state; a saved request resets the page |
| AccountGroups.AccountGroupsPage.HandleEdit | src/pages/AccountGroupsPage.js:88-114 | a loaded record with an id fills the form and opens the dialog |
| ReceiptVoucherList.Toggle | src/pages/ReceiptvoucherList.js:34-53 | only the toggled voucher's expansion and cache entry change, and the active row stays |
| ReceiptVoucherList.ToggleCases | src/pages/ReceiptvoucherList.js:35-51 | collapsing keeps the cache, a cached voucher expands without a fetch, a failed fetch changes nothing, a loaded one is cached and expanded |
| ReceiptVoucherList.ExpandCollapseExpand | src/pages/ReceiptvoucherList.js:34-53 | expand, collapse, expand fetches only once and keeps the first entries |
| ReceiptVoucherList.ToggleKeepsCached | src/pages/ReceiptvoucherList.js:34-53 | every expanded voucher stays cached |
| ReceiptVoucherList.RenderedIffExpanded | src/pages/ReceiptvoucherList.js:111-112 | the entries row exists exactly for expanded vouchers, and at most one row position shows entries |
| ReceiptVoucherList.SelectRow | src/pages/ReceiptvoucherList.js:95-96 | a click activates the row, or clears it when it was already active |
| ReceiptVoucherList.SelectRowTwice | src/pages/ReceiptvoucherList.js:95-96 | two clicks on the same row undo each other |
| ReceiptVoucherList.ButtonClick | src/pages/ReceiptvoucherList.js:94-104 | a click on the entries button toggles the voucher and then reaches the row, whose active state flips |
| ReceiptVoucherList.ButtonClickDisplays | src/pages/ReceiptvoucherList.js:94-113 | a button click that expands a voucher shows its entries exactly when its row was not already active |
| ReceiptVoucherList.ReceiptVoucherListPage.constructor | src/pages/ReceiptvoucherList.js:13-16 | nothing expanded, nothing cached, no active row |
| ReceiptVoucherList.ReceiptVoucherListPage.ToggleEntries | src/pages/ReceiptvoucherList.js:34-53 | the new state is `Toggle` of the old one, and a request is made exactly when the voucher is collapsed and not cached |
| ReceiptVoucherList.ReceiptVoucherListPage.ClickEntriesButton | src/pages/ReceiptvoucherList.js:94-104 | `toggleEntries` and then the row's click: the new state is `ButtonClick` of the old one |
| ReceiptVoucherList.ReceiptVoucherListPage.ClickRow | src/pages/ReceiptvoucherList.js:95-96 | only the active row changes |
| Sidebar.FirstSubMenuFound | src/layouts/Sidebar.js:30-35 | the sub-menu search finds nothing exactly when no sub-menu has the page, otherwise the first that does |
| Sidebar.FirstMatchFound | src/layouts/Sidebar.js:29-35 | the search finds nothing exactly when no page matches, otherwise the module and sub-menu of the first match |
| Sidebar.FindCurrentPage | src/layouts/Sidebar.js:27-39 | the three nested loops with their early return compute the first match |
| Sidebar.Flip | src/layouts/Sidebar.js:48-55 | a click opens a closed heading and closes an open one |
| Sidebar.FlipTwice | src/layouts/Sidebar.js:48-55 | two clicks on the same heading undo each other |
| Sidebar.SidebarState.constructor | src/layouts/Sidebar.js:15-17 | no modules, nothing expanded |
| Sidebar.SidebarState.Load | src/layouts/Sidebar.js:20-43 | a failed request changes nothing; otherwise the tree is stored and the first match, if any, expanded |
| Sidebar.SidebarState.ToggleModule | src/layouts/Sidebar.js:48-51 | the module flips and the sub-menu closes |
| Sidebar.SidebarState.ToggleSubMenu | src/layouts/Sidebar.js:53-55 | only the sub-menu flips |

## Left out

- Floating point: amounts are whole cents. Every amount input passes `allowTwoDecimals`, so `parseFloat` sums are modelled as exact integer sums; rounding of binary floats is not modelled.
- Unicode: strings are sequences of characters, and `trim` and `\s` use the ECMAScript white-space set. UTF-16 surrogate pairs are not modelled.
- JavaScript coercions of a server value of the wrong type (a string where a boolean is expected, for `Boolean()` and `!!`) are not modelled. Properties are present with their type, or missing (`None`).
- Select-option text: `<select>` values are modelled as the ids they stand for. `parseInt` of option text, and of the priority input (`parseInt(0.5)` is 0), are not modelled; priorities are integers or `NaN`.
- Network, toasts, console logs, navigation (`window.location`, the receipt voucher's URL rewrite) and list reloads: requests become results, and outcomes become parameters.
- Rendering: the `isView` gating of tables and the markup itself.
- Asynchrony: React's batched state updates and stale closures between an `await` and a state update. Each handler is one atomic step on the state it reads at its start.
- Company logo preview: `handleFileChange`, object URLs and their revocation. The picked file is a parameter; the preview is kept only as a string.
- Clipboard: `handleDecimalPaste` gets the pasted text as a parameter; `preventDefault` is not modelled.
- Page loading (the `load*` functions, permission loading, role and page lists): lists are parameters and page permissions are constructor arguments.
- `handleDelete` of VoucherTypesPage.js, ModuleAddPages.js, AccountGroupsPage.js and LedgersPage.js is not modelled: it is a request with no state change beyond the confirmation, and these pages check no permission there. The `handleDelete` of UserRolesPage.js, gated on `isDelete`, is not modelled either: it has the shape of the company page's, which is. The permission-gated delete is modelled for the modules pages and the company page.
- `handleDelete` and `handleEdit` of ReceiptvoucherList.js are not modelled: a request and a navigation.
- HierarchyHelper.Walk: the recursion is bounded by the number of records and returns `None` past the bound, where the source would recurse until the stack overflows. With unique ids the bound is never reached (`HierarchyTheorems.HierarchyReturns`).
- ModulesPages: ModulesPage.js and SubModulesPage.js are one component over differently named fields, so one model serves both and the field names are not modelled.
