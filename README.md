# expensepal reconciliation core, modelled in Dafny

expensepal is an expense console. Corporate-card transactions are reconciled
against uploaded receipts, expense items are composed into reports that must
stay on one card, and spending is tracked against budgets. Expense policies
are kept as rules filed by country, seniority and expense type, and those
rules feed a compliance check. This project models the deterministic logic
behind those features and proves properties of it:

- **Match scoring** (`MatchScore`, `CreateReport`). The three-part score of a
  transaction against an expense item, the static currency conversion,
  best-match selection, the single-card rule and report submission.
- **The shared in-memory store** (`DataStore`). Transaction status updates,
  matching and unmatching against the receipt pool, the report-item queue,
  reports, budgets, and the effect that recomputes budget spending over each
  budget's date window.
- **The corporate-card page** (`CardIntegration`). The greedy auto-matcher,
  manual match and unlink, filtering, date sorting and per-card statistics.
- **Policy-rule bookkeeping**:
  - the back end's applicable-rule filter, prompt formatting, de-duplication
    and id renumbering (`PolicyExtractor`);
  - the three-level rule store and its editor (`RuleStore`, `PolicySettings`);
  - the flattening the compliance check receives (`RightPanel`);
  - the two pages that approve extracted policies into the rule store
    (`PolicyDocuments`, `PolicyUrl`, with `UrlNormalize`).
- **Small state machines and validators** (`BudgetManagement`,
  `ExpenseReports`). The budget form and its allocation checks, budget ids,
  the reimbursement stepper, report approval and rejection, status colours and
  pagination.

Conventions:

- Money is in integer cents. Converted US-dollar amounts are in
  micro-dollars: cents times the exchange rate scaled by 10^4, so every
  threshold of the score is an exact integer.
- Dates are integer day numbers, since the source only holds `YYYY-MM-DD`
  dates.
- A JavaScript object whose key order matters is a sequence of key/value
  pairs with distinct keys (`Assoc`). A `Set` whose iteration order matters
  is a duplicate-free sequence.
- Pages and the store are classes whose fields the handlers replace. Each
  class has a `State()` snapshot, so every handler states its whole new
  state. The loops inside handlers are methods proved equal to a
  specification function, and the properties are lemmas about those
  functions.
- Budget creation (`BudgetManagement.Submit`) numbers the new budget as the
  page does: `BUD-` and the list length plus one (`NewBudgetId`).
  `SubmitAfterDeleteCollides` shows how that repeats an id after a deletion
  (see Findings). The corrected numbering, one past the largest id number in
  use, is `CreatedBudgetFixed`. It agrees with the page while no budget has
  been deleted.
- The rule flattening (`RightPanel.GetPolicyRules`), the prompt formatting
  (`PolicyExtractor.FormatApplicablePolicies`) and the budget id model the
  code as written. The
  corrected versions sit beside them, and no other part of the model
  consumes their output.

## Model

| member | source | states |
|---|---|---|
| MatchScore.ConvertToUSD | src/components/CreateReport.jsx:220-232 | a zero amount converts to 0; an empty, 'USD' or unknown currency keeps the amount; a known currency multiplies the amount by its rate from the table at lines 51-60 |
| MatchScore.ConvertAdditive | src/components/CreateReport.jsx:220-232 | conversion is linear, so converting a sum equals summing the conversions |
| MatchScore.AmountScore | src/components/CreateReport.jsx:115-127 | the amount part is one of 0, 10, 20, 30, 40, 50, and is 50 exactly when the difference is under one cent |
| MatchScore.AmountScoreMonotone | src/components/CreateReport.jsx:115-127 | for a fixed expense amount a larger difference never earns more amount points |
| MatchScore.CommonWords | src/components/CreateReport.jsx:139-145 | the common words are exactly the vendor words longer than two characters found inside some merchant word, repeats included and in vendor order, so their number is the number of such vendor words |
| MatchScore.VendorScore | src/components/CreateReport.jsx:129-149 | the vendor part lies in 0..30; it is 30 exactly when the lower-cased names are equal, 25 exactly when they differ but one contains the other, and otherwise 5 per common word, at most 20 |
| MatchScore.DateScore | src/components/CreateReport.jsx:151-165 | the date part is one of 0, 5, 10, 15, 20; 20 exactly on the same day and 0 exactly from 8 days apart |
| MatchScore.Score | src/components/CreateReport.jsx:112-168 | the match score lies in 0..100 |
| MatchScore.ScoreHundredIff | src/components/CreateReport.jsx:112-168 | the score is 100 exactly for a penny-exact amount, equal lower-cased names and the same day |
| MatchScore.ScoreMonotoneInAmount | src/components/CreateReport.jsx:112-168 | with vendor and dates fixed, a transaction further off in amount never scores higher |
| CreateReport.LinkedTx | src/components/CreateReport.jsx:271-273 | the transaction looked up for a matched item carries the id the composer's map holds for that item |
| CreateReport.FirstLinked | src/components/CreateReport.jsx:308-318 | the transaction of the first report item, in report order, whose match resolves to a stored transaction; none exactly when no item's match resolves |
| CreateReport.AvailableTransactions | src/components/CreateReport.jsx:96-98 | the available pool holds exactly the stored transactions whose status is Unmatched |
| CreateReport.RunningBest | src/components/CreateReport.jsx:184-190 | the running maximum started at 0 and replaced only on a strictly greater score ends on the first candidate reaching the highest positive score, or on none when no candidate scores above 0 |
| CreateReport.FindBestMatch | src/components/CreateReport.jsx:171-193 | no expense gives no match; a returned id is claimed by no item, belongs to the first unclaimed candidate reaching the highest score, and that score is at least 60; no result means either no expense or every unclaimed candidate scores below 60 |
| CreateReport.AnchorCard | src/components/CreateReport.jsx:308-318 | the loop that looks for the first matched item stops at the first one whose transaction resolves and yields that transaction's card |
| CreateReport.MatchCandidates | src/components/CreateReport.jsx:306-323 | the candidates are drawn from the available pool, and with an anchor card all of them are on that card |
| CreateReport.NoAnchorOffersWholePool | src/components/CreateReport.jsx:321-322 | without an anchor the filter keeps every transaction of the list it is given, which is the dialog's current list, not necessarily the whole unmatched pool |
| CreateReport.AnchorOffersItsCard | src/components/CreateReport.jsx:313-315 | with an anchor, every available transaction on the anchor's card is offered |
| CreateReport.ReopenSameAnchor | src/components/CreateReport.jsx:306-325 | opening the dialog again with the same anchor offers the same list |
| CreateReport.NarrowedPoolStays | src/components/CreateReport.jsx:306-325 | once the list is narrowed to a card, opening the dialog with no anchor keeps it narrowed to that card; only the effect at lines 96-98 widens it again |
| CreateReport.ReportComposer.OpenMatchDialog | src/components/CreateReport.jsx:301-340 | the expense is selected and the dialog opens; the candidates are the current list when no item is linked and otherwise the current list filtered to the first linked item's card, and they replace the current list; a suggested match is unclaimed, among the candidates and scores at least 60 |
| CreateReport.CanAddToCurrentReport | src/components/CreateReport.jsx:276-298 | an item may join when the report is empty, when it resolves to no transaction, or when every linked item of the report is on its card |
| CreateReport.CanAddKeepsOneCard | src/components/CreateReport.jsx:276-298 | an item the rule admits keeps a single-card report single-card |
| CreateReport.CollectCards | src/components/CreateReport.jsx:437-448 | the card and account sets hold, without repeats, exactly the cards of the linked items; they are empty together, and their first elements are the first linked transaction's card and account |
| CreateReport.MoreThanOneCardIff | src/components/CreateReport.jsx:450-453 | the card set has more than one element exactly when two linked items are on different cards |
| CreateReport.FirstLinkedAt | src/components/CreateReport.jsx:308-318 | the first linked item is the one before which no item is linked |
| CreateReport.ReportLineOf | src/components/CreateReport.jsx:477-485 | a submitted line keeps the item, carries its USD amount, carries a transaction id exactly when the item is matched, and carries that transaction's card and account exactly when the match resolves |
| CreateReport.ReportLines | src/components/CreateReport.jsx:476-486 | one line per item, in report order |
| CreateReport.TotalIsSumOfLines | src/components/CreateReport.jsx:233-239 | the report total equals the sum of the line amounts |
| CreateReport.ComposeReport | src/components/CreateReport.jsx:420-490 | the report is refused exactly when the title is blank, there are no items, no cost code is chosen or two linked items are on different cards; an accepted report carries the given id, title, description and cost code, is 'submitted' with no approval details, has the lines and total, and carries card information exactly when some item is linked: the card and account of the first linked transaction, the card every linked item is on |
| CreateReport.BuildReport | src/components/CreateReport.jsx:420-490 | the checks in the source's order and the card sets filled by a loop give exactly the composed report or refusal |
| CreateReport.ReportComposer.constructor | src/components/CreateReport.jsx:81-93 | the composer starts with an empty title, description, cost code, selection, match map and candidate list, the dialog closed and no expense selected |
| CreateReport.ReportComposer.MatchTransaction | src/components/CreateReport.jsx:349-386 | without a selected expense nothing changes; otherwise the expense maps to the transaction, the dialog closes, the selection clears and the store matches the transaction with the new receipt id, whether or not another item already claims it; the candidate list is kept |
| CreateReport.ReportComposer.UnmatchTransaction | src/components/CreateReport.jsx:389-417 | the expense's entry leaves the map, and the store unmatches its transaction only when the entry was a non-empty id |
| CreateReport.ReportComposer.SubmitReport | src/components/CreateReport.jsx:420-500 | a refused report sets the error and changes nothing else; an accepted one is put first in the store's reports, the report queue is emptied and the form is reset |
| CreateReport.ReportComposer.ItemsChanged | src/components/CreateReport.jsx:100-109 | a change to the queued items rebuilds the match map from them; queued items carry no match id, so the map becomes empty and nothing else changes |
| CreateReport.ReportComposer.TransactionsChanged | src/components/CreateReport.jsx:96-98 | a change to the store's transactions refills the candidate list with exactly the store's unmatched transactions, and nothing else changes |
| CreateReport.ReportComposer.CloseMatchDialog | src/components/CreateReport.jsx:343-346 | the dialog closes and the expense is deselected; the candidate list stays as the last opening left it |
| DataStore.SetTxStatus | src/components/DataContext.jsx:668-681 | status, receipt id and receipt status change on every transaction with the id and on no other; length and order are kept |
| DataStore.SetTxStatusTwice | src/components/DataContext.jsx:668-681 | a second status update on the same id overrides the first |
| DataStore.SetTxStatusUnmatchedNoop | src/components/DataContext.jsx:668-681 | resetting already-unmatched transactions to Unmatched changes nothing |
| DataStore.FindTx | src/components/DataContext.jsx:738 | the lookup finds nothing exactly when no transaction carries the id, and otherwise a transaction with that id |
| DataStore.FindTxIsFirst | src/components/DataContext.jsx:738 | the transaction found is the one at the first position carrying the id |
| DataStore.FindAfterSet | src/components/DataContext.jsx:668-681 | after a status update, the lookup finds the same transaction with the new status and receipt fields |
| DataStore.MatchWithReceipt | src/components/DataContext.jsx:727-733 | every transaction with the id becomes Matched with the receipt id and status 'Verified', every pool receipt with the receipt id is removed, and reports, the report queue and budgets are unchanged |
| DataStore.Unmatch | src/components/DataContext.jsx:736-754 | nothing changes unless the transaction exists and has a receipt id; otherwise a receipt rebuilt from the transaction goes first in the pool and the transaction is reset to Unmatched with no receipt fields |
| DataStore.MatchThenUnmatch | src/components/DataContext.jsx:727-754 | matching an unmatched transaction and then unmatching it leaves the transactions as they were and a receipt with that id first in the pool |
| DataStore.SetReportStatus | src/components/DataContext.jsx:757-770 | only the reports with the id get the new status and approval details; length and order are kept |
| DataStore.ReplaceBudget | src/components/DataContext.jsx:708-714 | every budget with the updated budget's id is replaced by it and every other budget is kept in place |
| DataStore.FindCard | src/components/DataContext.jsx:615 | the card found is a stored card with that number; none exactly when no card has it |
| DataStore.Amounts | src/components/DataContext.jsx:568-578 | the amounts of the transactions, position by position |
| DataStore.SpentIsSumOfWindow | src/components/DataContext.jsx:568-578 | a budget's spent figure is the sum of the amounts of the transactions dated within the budget window, both ends included |
| DataStore.PartsWithinSpent | src/components/DataContext.jsx:584-628 | with non-negative amounts, neither a category nor a department ever spends more than the whole budget |
| DataStore.Recompute | src/components/DataContext.jsx:566-634 | spent is the window total and remaining is amount minus spent; the id, name, amount, dates and status are kept, and every category and department keeps its name and allocation and gets its own window total |
| DataStore.RecomputeAll | src/components/DataContext.jsx:564-643 | every budget is recomputed against the same transactions and cards, in place |
| DataStore.Store.constructor | src/components/DataContext.jsx:405-414 | the store starts from the given state |
| DataStore.Store.UpdateTransactionStatus | src/components/DataContext.jsx:668-681 | only the transaction list changes, as SetTxStatus says |
| DataStore.Store.RemoveUnmatchedReceipt | src/components/DataContext.jsx:689-691 | every pool receipt with the id goes; the rest keep their order |
| DataStore.Store.AddUnmatchedReceipt | src/components/DataContext.jsx:684-686 | the receipt goes first in the pool |
| DataStore.Store.MatchTransactionWithReceipt | src/components/DataContext.jsx:727-733 | the new state is MatchWithReceipt of the old one |
| DataStore.Store.UnmatchTransaction | src/components/DataContext.jsx:736-754 | the new state is Unmatch of the old one |
| DataStore.Store.AddReport | src/components/DataContext.jsx:646-650 | the report goes first and the report queue is emptied |
| DataStore.Store.AddToReport | src/components/DataContext.jsx:653-655 | the item is appended to the report queue |
| DataStore.Store.RemoveFromReport | src/components/DataContext.jsx:658-660 | every queued item with the id goes; the rest keep their order |
| DataStore.Store.UpdateReportStatus | src/components/DataContext.jsx:757-770 | only the reports change, as SetReportStatus says |
| DataStore.Store.UpdateBudget | src/components/DataContext.jsx:708-714 | only the budgets change, as ReplaceBudget says |
| DataStore.Store.AddBudget | src/components/DataContext.jsx:717-719 | the budget is appended |
| DataStore.Store.DeleteBudget | src/components/DataContext.jsx:722-724 | every budget with the id goes; the rest keep their order |
| DataStore.Store.RecomputeBudgets | src/components/DataContext.jsx:564-643 | only the budgets change, each recomputed against the current transactions and cards |
| CardIntegration.FindPairIndex | src/components/CorporateCardIntegration.jsx:315-319 | the index found is the first receipt with exactly the transaction's amount whose lower-cased vendor contains the lower-cased merchant name; none exactly when no receipt fits |
| CardIntegration.RemoveAtMultiset | src/components/CorporateCardIntegration.jsx:330 | splicing one receipt out of the pool loses exactly that receipt |
| CardIntegration.AutoMatchFrom | src/components/CorporateCardIntegration.jsx:307-336 | the transactions keep their length, and the receipts left plus the receipts used are as many as the pool held |
| CardIntegration.AutoMatchStep | src/components/CorporateCardIntegration.jsx:313-334 | one step of the walk: an unmatched transaction with a fitting receipt is linked to the first one, which leaves the pool; any other transaction stays as it is |
| CardIntegration.AutoMatchKeepsReceipts | src/components/CorporateCardIntegration.jsx:321-331 | the receipts left and the receipts used make up exactly the original pool, so none is lost or duplicated |
| CardIntegration.AutoMatchCountsFlips | src/components/CorporateCardIntegration.jsx:321-333 | the number of receipts used equals the number of transactions that went from Unmatched to Matched |
| CardIntegration.AutoMatchOnlyRewritesUnmatched | src/components/CorporateCardIntegration.jsx:313-329 | each transaction either stays as it was or was Unmatched and is now linked, Matched and 'Verified', to a used receipt it pairs with |
| CardIntegration.AutoMatchKeepsMatched | src/components/CorporateCardIntegration.jsx:314 | a Matched transaction is never touched |
| CardIntegration.AutoMatchUsesEachReceiptOnce | src/components/CorporateCardIntegration.jsx:330 | no receipt is used more often than it occurs in the pool |
| CardIntegration.AutoMatchEmptyPool | src/components/CorporateCardIntegration.jsx:307-336 | with an empty pool the auto-matcher changes no transaction |
| CardIntegration.AutoMatchLoop | src/components/CorporateCardIntegration.jsx:307-334 | the forEach over the copies, with its in-place replacement, splice and counter, ends with exactly the transactions, pool and count of the left-to-right definition, and the count is how much the pool shrank |
| CardIntegration.UnlinkedReceipts | src/components/CorporateCardIntegration.jsx:397-408 | unlinking rebuilds at most one receipt per transaction, each with status 'Unmatched' |
| CardIntegration.UnlinkedReceiptsOfUnique | src/components/CorporateCardIntegration.jsx:397-408 | with a single transaction carrying the id, unlinking rebuilds its receipt exactly when it has a receipt id, and nothing else |
| CardIntegration.NoUnlinkedReceipts | src/components/CorporateCardIntegration.jsx:394-395 | when no transaction carries the id, no receipt is rebuilt |
| CardIntegration.FilteredTransactions | src/components/CorporateCardIntegration.jsx:444-463 | a transaction is shown exactly when the case-insensitive search hits its merchant, id, account or receipt id, the status filter accepts it and the card filter accepts it |
| CardIntegration.NoFilterShowsAll | src/components/CorporateCardIntegration.jsx:444-463 | an empty search with both filters on 'all' shows every transaction, in order |
| CardIntegration.Toggled | src/components/CorporateCardIntegration.jsx:478-480 | toggling always changes the sort order |
| CardIntegration.ToggleTwice | src/components/CorporateCardIntegration.jsx:478-480 | toggling twice restores the sort order |
| CardIntegration.Insert | src/components/CorporateCardIntegration.jsx:466-470 | inserting into a date-ordered list keeps it ordered and adds exactly the one transaction |
| CardIntegration.SortByDate | src/components/CorporateCardIntegration.jsx:466-470 | the sorted list is a permutation of the filtered list, ordered newest first for 'desc' and oldest first for 'asc' |
| CardIntegration.InsertSameDate | src/components/CorporateCardIntegration.jsx:466-470 | an inserted transaction goes ahead of every transaction of its own date, which keep their order |
| CardIntegration.SortByDateStable | src/components/CorporateCardIntegration.jsx:466-470 | the sort is stable: the transactions of any one date keep their order in the filtered list |
| CardIntegration.StatusPartition | src/components/CorporateCardIntegration.jsx:488-490 | every transaction counts as matched or as unmatched, never both |
| CardIntegration.GetCardStats | src/components/CorporateCardIntegration.jsx:483-493 | the count is the number of transactions on the card, matched and unmatched are the numbers of those with each status, and they add up to the count; for 'all' it counts and totals every transaction |
| CardIntegration.CardStatsCons | src/components/CorporateCardIntegration.jsx:483-493 | one more transaction adds its amount, one and its status to its own card's figures and leaves every other card's figures alone |
| CardIntegration.StatsOverCons | src/components/CorporateCardIntegration.jsx:483-493 | over distinct card tabs, a transaction adds its figures once if its card has a tab and not at all otherwise |
| CardIntegration.CardStatsAddUp | src/components/CorporateCardIntegration.jsx:483-493 | with one tab per distinct card and every transaction on a listed card, the tabs' totals, counts, matched and unmatched figures add up to those of 'all' |
| CardIntegration.CardLedger.constructor | src/components/CorporateCardIntegration.jsx:245-257 | the page starts with the given lists, an empty search, both filters on 'all', newest first, nothing selected and tab 0 |
| CardIntegration.CardLedger.AutoMatch | src/components/CorporateCardIntegration.jsx:301-348 | the transactions and pool become those of the left-to-right auto-match, the count is the number of receipts used, and nothing else changes |
| CardIntegration.CardLedger.ManualMatch | src/components/CorporateCardIntegration.jsx:351-354 | the transaction is selected and the receipt dialog opens; nothing else changes |
| CardIntegration.CardLedger.ConfirmMatch | src/components/CorporateCardIntegration.jsx:357-389 | the dialog closes; when the receipt is in the pool and a transaction is selected, that transaction becomes Matched and 'Verified' with the receipt id and the receipt leaves the pool; otherwise the lists are unchanged |
| CardIntegration.CardLedger.Unlink | src/components/CorporateCardIntegration.jsx:392-428 | every transaction with the id is reset to Unmatched with no receipt fields, and each that had a receipt id appends a rebuilt receipt to the end of the pool |
| CardIntegration.CardLedger.CardTabChange | src/components/CorporateCardIntegration.jsx:431-441 | tab 0 selects 'all' and tab k the card number of the k-th card |
| CardIntegration.CardLedger.ToggleSort | src/components/CorporateCardIntegration.jsx:478-480 | only the sort order changes, to the other one |
| CardIntegration.CardLedger.Visible | src/components/CorporateCardIntegration.jsx:444-470 | the rows on screen are the filtered transactions, reordered by date in the chosen order |
| CardIntegration.ConfirmThenUnlink | src/components/CorporateCardIntegration.jsx:357-421 | confirming a receipt for a transaction with a unique id and then unlinking it restores the transaction list, and the receipt comes back rebuilt at the end of the pool |
| PolicyExtractor.Underscored | backend/expensereportextractor.py:291 | every space becomes an underscore and every other character stays, so the length is kept |
| PolicyExtractor.NormalizeInvoice | backend/expensereportextractor.py:289-291 | the invoice keys are lower-cased; a missing or empty country becomes 'global', seniority 'all' and expense type 'all', and the expense type has its spaces turned into underscores |
| PolicyExtractor.FilterApplicable | backend/expensereportextractor.py:284-308 | the accumulator loop keeps exactly the rules, in order, that the normalised invoice admits |
| PolicyExtractor.KeptIffApplies | backend/expensereportextractor.py:295-306 | a rule is kept exactly when its lower-cased country is 'global' or the invoice's, its seniority 'all' or the employee's, and its expense type 'all' or the invoice's |
| PolicyExtractor.FilterIsSubsequence | backend/expensereportextractor.py:293-308 | the applicable rules are the input rules in their original order, some left out |
| PolicyExtractor.WildcardRuleApplies | backend/expensereportextractor.py:301-305 | a rule tagged global/all/all, in any letter case, applies to every invoice |
| PolicyExtractor.DefaultBlockIsWildcardBlock | backend/expensereportextractor.py:332-337 | the default block reads exactly like the block of a first rule tagged Global/All/All |
| PolicyExtractor.FormatApplicablePolicies | backend/expensereportextractor.py:310-339 | an empty rule list gives exactly the default block; otherwise the blocks of the rules, numbered from 1, joined by newlines |
| PolicyExtractor.LowerCaseWildcardsAsWritten | backend/expensereportextractor.py:319-321 | a rule tagged with the lower-case wildcards is described as applying to the country 'global', to 'all level employees' and to 'all expenses' |
| PolicyExtractor.WildcardsDescribedFixed | backend/expensereportextractor.py:319-321 | with the wildcards recognised in any case, a rule the filter applies everywhere is described as applying to all countries, levels and categories, like the default block |
| PolicyExtractor.Entry | backend/expensereportextractor.py:138-143 | the entry starts with its number and the description, 'Not provided' when missing |
| PolicyExtractor.FormatLineItems | backend/expensereportextractor.py:132-144 | a missing or empty list gives "No items found"; otherwise one numbered entry per item, from 1, joined by newlines |
| PolicyExtractor.Unpunctuate | backend/expensereportextractor.py:507 | removing the characters that are neither word characters nor whitespace never lengthens the text |
| PolicyExtractor.UnpunctuateShape | backend/expensereportextractor.py:507 | only word characters and whitespace are left |
| PolicyExtractor.SkipSpaces | backend/expensereportextractor.py:508 | skipping a run of whitespace never lengthens the text |
| PolicyExtractor.SkipSpacesShape | backend/expensereportextractor.py:508 | after skipping, the text starts with a non-space and holds only characters of the input |
| PolicyExtractor.CollapseShape | backend/expensereportextractor.py:508 | after collapsing, the only whitespace left is single spaces, never two in a row, and the first character is kept or turned into a space |
| PolicyExtractor.SignatureShape | backend/expensereportextractor.py:505-508 | a signature is words of word characters separated by single spaces, with no space at either end |
| PolicyExtractor.RemoveDuplicatePolicies | backend/expensereportextractor.py:492-515 | the loop with the seen-signature set keeps exactly the first policy of every signature, in input order, and an empty input gives an empty result |
| PolicyExtractor.DedupProperties | backend/expensereportextractor.py:492-515 | the kept policies are input policies in input order, no two share a signature, every input signature is kept, and de-duplicating again changes nothing |
| PolicyExtractor.DedupDropsVariant | backend/expensereportextractor.py:505-513 | of two policies whose texts differ only in case, punctuation or spacing, only the first is kept |
| PolicyExtractor.SequentialIdInjective | backend/expensereportextractor.py:479-480 | different positions get different ids |
| PolicyExtractor.ReassignIds | backend/expensereportextractor.py:479-480 | the renumbering loop gives the policy at position i the id 'p' followed by i+1, changes nothing else, and leaves no two policies with the same id |
| RuleStore.SetRules | src/components/PolicySettingsPage.jsx:265-281 | after writing a leaf, reading the same three keys gives exactly the written list |
| RuleStore.Nest | src/components/PolicySettingsPage.jsx:172-178 | the single-leaf structure is well formed, holds the list under its three keys and counts exactly its rules |
| RuleStore.SetRulesOther | src/components/PolicySettingsPage.jsx:265-281 | writing one leaf leaves every other leaf as it was |
| RuleStore.SetRulesWellFormed | src/components/PolicySettingsPage.jsx:265-281 | writing a leaf keeps the keys distinct at every level |
| RuleStore.SetRulesCount | src/components/PolicySettingsPage.jsx:374-384 | writing a leaf changes the total rule count by the difference between the new and the old leaf length |
| RuleStore.Tag | src/components/RightPanel.jsx:64-71 | one tagged entry per rule of the leaf, in list order, carrying the leaf's three keys |
| RuleStore.FlattenLevelsCount | src/components/RightPanel.jsx:60-73 | flattening one country yields as many entries as the country has rule texts |
| RuleStore.FlattenCount | src/components/RightPanel.jsx:58-74 | flattening the whole store yields exactly as many entries as there are rule texts |
| PolicySettings.LoadRules | src/components/PolicySettingsPage.jsx:162-222 | a loaded store is well formed; no saved value, unparsable text or null gives the eight default rules under global/all/all; a flat array becomes the global/all/all leaf |
| PolicySettings.TwoLevelLoaded | src/components/PolicySettingsPage.jsx:181-193 | the legacy two-level layout files each country's expense-type array under that country, seniority 'all' and the same expense type |
| PolicySettings.CurrentRules | src/components/PolicySettingsPage.jsx:242-259 | the selected leaf, and the empty list whenever the country, seniority or expense-type level is absent |
| PolicySettings.AddOne | src/components/PolicySettingsPage.jsx:265-281 | pushing a rule keeps the store well formed and leaves the selected leaf as it was with the rule appended last |
| PolicySettings.AddOneEffect | src/components/PolicySettingsPage.jsx:262-288 | one push adds one to the total count and leaves every other leaf unchanged |
| PolicySettings.AddAll | src/components/PolicySettingsPage.jsx:119-145 | pushing a batch keeps the store well formed |
| PolicySettings.AddAllCount | src/components/PolicySettingsPage.jsx:119-145 | a batch grows the total count by the batch size |
| PolicySettings.AddAllLoop | src/components/PolicySettingsPage.jsx:122-142 | the forEach pushes each rule under its own keys in batch order |
| PolicySettings.Moved | src/components/PolicySettingsPage.jsx:326-332 | removing the dragged rule and inserting it at the target keeps the length and the multiset of rules and puts the dragged rule at the target index |
| PolicySettings.CountRules | src/components/PolicySettingsPage.jsx:374-384 | the three nested loops count exactly the rule texts over all leaves |
| PolicySettings.CountsFor | src/components/PolicySettingsPage.jsx:387-426 | the global/all/all view shows the total count twice and no seniority count; any other view shows a seniority count, and a country absent from the store counts 0 |
| PolicySettings.LeavesCountNonNegative | src/components/PolicySettingsPage.jsx:374-384 | a leaf count is never negative |
| PolicySettings.LevelsCountNonNegative | src/components/PolicySettingsPage.jsx:374-384 | a country count is never negative |
| PolicySettings.CountryCountBounded | src/components/PolicySettingsPage.jsx:399-405 | the country count lies between 0 and the total |
| PolicySettings.TypeCountWithin | src/components/PolicySettingsPage.jsx:408-414 | one country's expense-type count lies between 0 and that country's count |
| PolicySettings.TypeCountBounded | src/components/PolicySettingsPage.jsx:408-414 | the expense-type count lies between 0 and the total |
| PolicySettings.SeniorityCountWithin | src/components/PolicySettingsPage.jsx:417-423 | one country's seniority count lies between 0 and that country's count |
| PolicySettings.SeniorityCountBounded | src/components/PolicySettingsPage.jsx:417-423 | the seniority count lies between 0 and the total |
| PolicySettings.CountsBounded | src/components/PolicySettingsPage.jsx:387-426 | every count shown beside a filter lies between 0 and the total number of rules |
| PolicySettings.CountryCountIsFlatten | src/components/PolicySettingsPage.jsx:399-405 | the country count is the number of rules filed under that country, counted in the flat tagged list |
| PolicySettings.TypeCountIsFlatten | src/components/PolicySettingsPage.jsx:408-414 | the expense-type count is the number of rules of that type under any country and seniority, counted in the flat tagged list |
| PolicySettings.SeniorityCountIsFlatten | src/components/PolicySettingsPage.jsx:417-423 | the seniority count is the number of rules of that seniority under any country and type, counted in the flat tagged list |
| PolicySettings.CountsAreFlattenCounts | src/components/PolicySettingsPage.jsx:387-426 | the global/all/all view shows the number of rules twice; any other view shows the numbers of rules of the selected country, expense type and seniority in the flat tagged list |
| PolicySettings.RuleEditor.constructor | src/components/PolicySettingsPage.jsx:162-231 | the page starts on the loaded rules, the global/all/all view, an empty input, no drag and the manual tab; a saved number or boolean, kept as it is, acts as the empty store |
| PolicySettings.RuleEditor.Select | src/components/PolicySettingsPage.jsx:228-230 | only the three selected keys change |
| PolicySettings.RuleEditor.TypeNewRule | src/components/PolicySettingsPage.jsx:226 | only the input text changes |
| PolicySettings.RuleEditor.AddRule | src/components/PolicySettingsPage.jsx:262-288 | blank or whitespace-only input changes nothing; otherwise the trimmed text is pushed to the selected leaf, creating missing levels, and the input is cleared |
| PolicySettings.RuleEditor.AddPolicyRules | src/components/PolicySettingsPage.jsx:119-156 | every approved rule is pushed under its keys, the manual tab is shown, and a single rule also becomes the selected view |
| PolicySettings.RuleEditor.DeleteRule | src/components/PolicySettingsPage.jsx:290-300 | a missing leaf changes nothing; otherwise only the element at the index leaves the selected leaf, the rest keeping their order |
| PolicySettings.RuleEditor.EditRule | src/components/PolicySettingsPage.jsx:302-311 | a missing leaf changes nothing; otherwise only the element at the index of the selected leaf is replaced |
| PolicySettings.RuleEditor.DragStart | src/components/PolicySettingsPage.jsx:314-319 | the drag index is recorded |
| PolicySettings.RuleEditor.DragEnd | src/components/PolicySettingsPage.jsx:343-347 | the drag index is cleared |
| PolicySettings.RuleEditor.DragOver | src/components/PolicySettingsPage.jsx:321-341 | nothing changes when the target is the dragged index; otherwise the selected leaf has the dragged rule moved to the target and the drag follows it |
| PolicySettings.RuleEditor.GetTotalRuleCount | src/components/PolicySettingsPage.jsx:374-384 | the count is the number of rule texts over all leaves |
| RightPanel.DefaultTagged | src/components/RightPanel.jsx:95-116 | the fallback is eight rules, all tagged global/all/all |
| RightPanel.PolicyRules | src/components/RightPanel.jsx:41-117 | the result is never empty; missing storage, a parse failure, a non-object value, an empty flat array or a walk that throws all give the eight defaults |
| RightPanel.FlatListTagged | src/components/RightPanel.jsx:50-57 | a non-empty flat array yields one entry per rule, in order, tagged global/all/all |
| RightPanel.TypesWalk | src/components/RightPanel.jsx:62-71 | on arrays at the third level the innermost walk does not throw and yields the flattened leaves |
| RightPanel.LevelsWalk | src/components/RightPanel.jsx:61-72 | on objects of arrays the middle walk does not throw and yields the flattened seniorities |
| RightPanel.ThreeLevelIsFlatten | src/components/RightPanel.jsx:58-74 | on a well-shaped three-level object the walk does not throw and yields every rule with its country, seniority and expense-type keys, in key order |
| RightPanel.ThreeLevelCount | src/components/RightPanel.jsx:58-74 | a three-level object with at least one rule yields exactly the flattened rules, as many as the total rule count |
| RightPanel.EmptyThreeLevelGivesDefaults | src/components/RightPanel.jsx:77-116 | a three-level object with no rules falls through the two-level walk, which finds nothing either, to the defaults |
| RightPanel.TwoLevelLostAsWritten | src/components/RightPanel.jsx:58-74 | a legacy two-level object holding any non-empty rule makes the three-level walk call forEach on a rule string, and the saved rules are replaced by the defaults |
| RightPanel.TwoLevelExample | src/components/RightPanel.jsx:58-105 | one rule saved as global → meals → [rule] comes back as the eight defaults |
| RightPanel.PolicyRulesFixed | src/components/RightPanel.jsx:41-117 | with the walk skipping values of the wrong kind, the result is still never empty |
| RightPanel.TwoLevelKeptFixed | src/components/RightPanel.jsx:77-92 | corrected, a legacy two-level object with at least one rule yields those rules tagged with seniority 'all' |
| RightPanel.ThreeLevelKeptFixed | src/components/RightPanel.jsx:58-74 | corrected, a well-shaped three-level object still yields exactly its flattened rules |
| RightPanel.WalkTypes | src/components/RightPanel.jsx:62-71 | the innermost loop succeeds exactly when the walk does not throw, and then pushes exactly the walk's entries |
| RightPanel.WalkLevels | src/components/RightPanel.jsx:61-72 | the middle loop succeeds exactly when the walk does not throw, and then pushes exactly the walk's entries |
| RightPanel.WalkCountries | src/components/RightPanel.jsx:60-73 | the outer loop succeeds exactly when the three-level walk does not throw, and then pushes exactly its entries |
| RightPanel.WalkTwoLevels | src/components/RightPanel.jsx:78-91 | the backwards-compatible loops push exactly the array values of each country, tagged with seniority 'all' |
| RightPanel.GetPolicyRules | src/components/RightPanel.jsx:41-117 | the handler's result, with the storage read passed in, is exactly the as-written rule list |
| PolicyDocuments.WithoutIndex | src/components/PolicyDocumentUpload.jsx:147-149 | removing an index in range shortens the list by one; an index out of range leaves it unchanged |
| PolicyDocuments.ExtractedCount | src/components/PolicyDocumentUpload.jsx:152-203 | one document per successful file and never more than the files; every file succeeds exactly when the success count equals the file count, and exactly when no error message is left |
| PolicyDocuments.ExtractAll | src/components/PolicyDocumentUpload.jsx:163-182 | the per-file loop adds the successful extractions in file order, counts them, and keeps the last failure's message |
| PolicyDocuments.Toggled | src/components/PolicyDocumentUpload.jsx:206-212 | after a toggle the key is checked exactly when it was not checked before; an absent key becomes checked |
| PolicyDocuments.ToggleCount | src/components/PolicyDocumentUpload.jsx:206-212 | a toggle moves the selected count (`getSelectedCount`, lines 328-330) by exactly one and leaves every other key's value alone |
| PolicyDocuments.ToggleTwice | src/components/PolicyDocumentUpload.jsx:206-212 | toggling the same key twice restores the selected count |
| PolicyDocuments.ToggleValid | src/components/PolicyDocumentUpload.jsx:206-212 | toggling a key of an existing document keeps the keys unique and naming existing documents |
| PolicyDocuments.SelectedIdsExact | src/components/PolicyDocumentUpload.jsx:242-244 | the approved ids are exactly the keys whose value is true, and there are as many as `getSelectedCount` reports |
| PolicyDocuments.SelectedIdsBound | src/components/PolicyDocumentUpload.jsx:242-260 | every approved id names an existing document, so the lookups of lines 258 and 275 never miss a document |
| PolicyDocuments.GetBefore | src/components/PolicyDocumentUpload.jsx:305-312 | the kept part of the selection reads as before for earlier documents and holds nothing for the removed document or later ones |
| PolicyDocuments.GetShifted | src/components/PolicyDocumentUpload.jsx:314-323 | the re-keyed part holds, under document `i`, what document `i + 1` held, for every document from the removed index on, and nothing before it |
| PolicyDocuments.ReindexGet | src/components/PolicyDocumentUpload.jsx:301-326 | after a document is removed every selection entry follows its document: earlier keys unchanged, later keys one lower, the removed document's keys gone |
| PolicyDocuments.BeforeDistinct | src/components/PolicyDocumentUpload.jsx:305-312 | the kept entries have unique keys |
| PolicyDocuments.ShiftedDistinct | src/components/PolicyDocumentUpload.jsx:314-323 | decrementing the later documents' indices never makes two keys equal |
| PolicyDocuments.ReindexValid | src/components/PolicyDocumentUpload.jsx:301-326 | re-keying keeps the selection's keys unique and naming existing documents of the shorter list |
| PolicyDocuments.ReindexSelection | src/components/PolicyDocumentUpload.jsx:305-325 | the two passes over the selection produce exactly the re-keyed selection |
| PolicyDocuments.FindPolicySame | src/components/PolicyDocumentUpload.jsx:258-260 | `findIndex` by id gives the same position in two policy lists that differ only in approval flags |
| PolicyDocuments.ApproveOne | src/components/PolicyDocumentUpload.jsx:255-265 | marking one key keeps the number of documents |
| PolicyDocuments.ApproveAll | src/components/PolicyDocumentUpload.jsx:252-267 | marking all keys keeps the number of documents |
| PolicyDocuments.ApproveOneEffect | src/components/PolicyDocumentUpload.jsx:255-265 | one key changes approval flags only, and a policy ends approved exactly when it was already or it is the first in its document with the key's id |
| PolicyDocuments.SameTrans | src/components/PolicyDocumentUpload.jsx:252-267 | "differs only in approval flags" composes across successive keys |
| PolicyDocuments.ApproveAllEffect | src/components/PolicyDocumentUpload.jsx:252-267 | the marking pass changes approval flags only: a policy ends approved exactly when it was already or some checked key names it |
| PolicyDocuments.RulesForSame | src/components/PolicyDocumentUpload.jsx:269-286 | at most one rule per checked key, and the rules do not depend on the approval flags the first pass set |
| PolicyDocuments.ApproveLoop | src/components/PolicyDocumentUpload.jsx:255-265 | the `forEach` over the checked keys produces exactly the marked documents |
| PolicyDocuments.RulesLoop | src/components/PolicyDocumentUpload.jsx:272-286 | the second `forEach` collects exactly the rule of each named policy that exists, in key order |
| PolicyDocuments.TotalUpdate | src/components/PolicyDocumentUpload.jsx:360-364 | replacing a document changes the total policy count by the difference in its policy count |
| PolicyDocuments.TotalRemoveAt | src/components/PolicyDocumentUpload.jsx:360-364 | removing a document lowers the total policy count by its policy count |
| PolicyDocuments.SaveEditedEffect | src/components/PolicyDocumentUpload.jsx:222-239 | saving an edit keeps the documents, the total count and every other document; the edited id still finds the same position, which now holds the edited policy |
| PolicyDocuments.FindPolicyAfterReplace | src/components/PolicyDocumentUpload.jsx:228-233 | replacing a policy with one of the same id leaves `findIndex` by that id unchanged |
| PolicyDocuments.RemovePolicyEffect | src/components/PolicyDocumentUpload.jsx:333-357 | removing a policy lowers the total by the policies with that id in its document; when the document stays, no policy with that id is left in it and the key is no longer checked |
| PolicyDocuments.AfterRemovePolicyValid | src/components/PolicyDocumentUpload.jsx:333-357 | removing a policy, with or without its now-empty document, keeps the selection's keys unique and naming existing documents |
| PolicyDocuments.DocumentPanel.constructor | src/components/PolicyDocumentUpload.jsx:115-121 | the page starts with no files, no documents, an empty selection and no messages |
| PolicyDocuments.DocumentPanel.FileChange | src/components/PolicyDocumentUpload.jsx:132-145 | only PDF files are queued, after the existing ones; a pick without any PDF only sets the error message |
| PolicyDocuments.DocumentPanel.RemoveFile | src/components/PolicyDocumentUpload.jsx:147-149 | the file at the index leaves the queue and nothing else changes |
| PolicyDocuments.DocumentPanel.ProcessFiles | src/components/PolicyDocumentUpload.jsx:152-203 | an empty queue changes nothing; otherwise the successes are appended as documents, the queue is emptied, the last failure stays as the error and the success line reports all, some or none |
| PolicyDocuments.DocumentPanel.TogglePolicy | src/components/PolicyDocumentUpload.jsx:206-212 | only the selection changes, by toggling the key of that document and policy |
| PolicyDocuments.DocumentPanel.SaveEdit | src/components/PolicyDocumentUpload.jsx:222-239 | only the documents change, to the saved edit |
| PolicyDocuments.DocumentPanel.ApproveSelected | src/components/PolicyDocumentUpload.jsx:241-299 | with nothing checked an error and no rules; otherwise the checked policies are marked approved, their rules are returned in key order, and the selection is cleared with a count message only when there are rules |
| PolicyDocuments.DocumentPanel.RemoveDocument | src/components/PolicyDocumentUpload.jsx:301-326 | the document leaves the list and the selection is re-keyed, keeping it valid |
| PolicyDocuments.DocumentPanel.RemovePolicy | src/components/PolicyDocumentUpload.jsx:333-357 | the policy leaves its document, an emptied document is removed as by `handleRemoveDocument`, and a checked key for it is dropped |
| UrlNormalize.NormalizeURL | src/services/ExtractPolicyFromURL.js:50-56 | a URL that starts with "http://" or "https://" is returned as it is, any other gets "https://" in front, and the result always has a scheme |
| UrlNormalize.NormalizeIdempotent | src/services/ExtractPolicyFromURL.js:50-56 | normalising an already normalised URL changes nothing |
| PolicyUrl.ExtractRequestCases | src/components/PolicyURLExtractor.jsx:89-110 | a blank URL and one the URL parser rejects after normalisation each get their own message; an accepted request carries the normalised URL, which has a scheme and which the parser accepts |
| PolicyUrl.OrDefault | src/components/PolicyURLExtractor.jsx:216-219 | `x \|\| d` with a non-empty default never yields an empty key |
| PolicyUrl.Range | src/components/PolicyURLExtractor.jsx:120 | the default selection holds every position of the list exactly once, in order |
| PolicyUrl.Toggle | src/components/PolicyURLExtractor.jsx:134-141 | a toggled position is in the new set exactly when it was not in the old one, every other position keeps its membership, the set stays duplicate-free and its size moves by one |
| PolicyUrl.FilterNoDup | src/components/PolicyURLExtractor.jsx:137 | deleting from a duplicate-free set keeps it duplicate-free |
| PolicyUrl.FilterDropsOne | src/components/PolicyURLExtractor.jsx:137 | deleting a member shrinks the set by exactly one |
| PolicyUrl.Members | src/components/PolicyURLExtractor.jsx:135 | the set view of the selection has exactly its elements |
| PolicyUrl.FullSelection | src/components/PolicyURLExtractor.jsx:142 | for a valid selection, `size === extractedPolicies.length` holds exactly when every listed policy is selected |
| PolicyUrl.SubsetCard | src/components/PolicyURLExtractor.jsx:142 | a subset is never larger than its superset |
| PolicyUrl.DistinctCard | src/components/PolicyURLExtractor.jsx:135 | a duplicate-free selection has as many members as entries |
| PolicyUrl.ShiftDownKeeps | src/components/PolicyURLExtractor.jsx:181-188 | every selected position other than the deleted one survives, moved down by one when it was after it |
| PolicyUrl.ShiftDownMembers | src/components/PolicyURLExtractor.jsx:181-188 | every position of the new selection comes from a selected position: the same one before the deleted index, the next one from it on |
| PolicyUrl.NoDupSnoc | src/components/PolicyURLExtractor.jsx:184-186 | adding a position not yet in the set keeps it duplicate-free |
| PolicyUrl.ShiftDownNoDup | src/components/PolicyURLExtractor.jsx:181-188 | the re-numbered selection has no duplicates |
| PolicyUrl.ShiftDownValid | src/components/PolicyURLExtractor.jsx:176-189 | after a deletion the re-numbered selection names only positions of the shorter list, each once |
| PolicyUrl.ShiftSelection | src/components/PolicyURLExtractor.jsx:181-188 | the `forEach` over the selection builds exactly the re-numbered selection |
| PolicyUrl.MarkApproved | src/components/PolicyURLExtractor.jsx:203-208 | the list keeps its length and each policy ends approved exactly when it was already or its position is selected; nothing else changes |
| PolicyUrl.MarkLoop | src/components/PolicyURLExtractor.jsx:203-208 | the marking loop produces exactly the marked list |
| PolicyUrl.UrlRulesExact | src/components/PolicyURLExtractor.jsx:212-220 | one rule per selected position, in selection order, each carrying the policy's text and its keys defaulted to 'global', 'other' and 'all' |
| PolicyUrl.RulesLoop | src/components/PolicyURLExtractor.jsx:212-220 | the map over the selection produces exactly those rules |
| PolicyUrl.ConfidenceBands | src/components/PolicyURLExtractor.jsx:233-243 | the colour and the label of a confidence always name the same band, and a higher confidence never gets a lower label |
| PolicyUrl.ExtractRejected | src/components/PolicyURLExtractor.jsx:89-99 | a rejected URL changes nothing on the page but the error, which is one of the two URL messages |
| PolicyUrl.ExtractFound | src/components/PolicyURLExtractor.jsx:114-122 | an extraction that finds policies lists them all, selects every one, checks select-all and clears the error |
| PolicyUrl.ExtractFailed | src/components/PolicyURLExtractor.jsx:101-128 | an empty or failed extraction leaves an empty list, an empty selection and no success message |
| PolicyUrl.UrlPanel.constructor | src/components/PolicyURLExtractor.jsx:78-85 | the page starts with an empty URL, no policies, an empty selection and no messages |
| PolicyUrl.UrlPanel.TypeUrl | src/components/PolicyURLExtractor.jsx:78 | typing replaces the URL only |
| PolicyUrl.UrlPanel.ExtractPolicies | src/components/PolicyURLExtractor.jsx:89-132 | the page after the handler is the one the request checks and the service's answer determine, and the selection stays valid |
| PolicyUrl.UrlPanel.ApplyExtraction | src/components/PolicyURLExtractor.jsx:101-131 | applies a checked request and the service's answer, clearing the old list and selection first |
| PolicyUrl.UrlPanel.PolicySelection | src/components/PolicyURLExtractor.jsx:134-143 | the position is toggled, and select-all is checked afterwards exactly when every policy is selected |
| PolicyUrl.UrlPanel.SelectAll | src/components/PolicyURLExtractor.jsx:145-153 | checking selects every position, unchecking clears the selection, and the box follows the argument |
| PolicyUrl.UrlPanel.SaveEdit | src/components/PolicyURLExtractor.jsx:163-174 | the policy at the position is replaced and the success message set; nothing else changes |
| PolicyUrl.UrlPanel.DeletePolicy | src/components/PolicyURLExtractor.jsx:176-193 | the policy leaves the list, the selection is re-numbered and stays valid, and select-all is checked exactly when every remaining policy is selected |
| PolicyUrl.UrlPanel.ApproveSelected | src/components/PolicyURLExtractor.jsx:195-230 | with nothing selected an error and no rules; otherwise the selected policies are marked approved, one defaulted rule per selected position is returned, and the selection and select-all box are cleared |
| BudgetManagement.ParsedOrEmpty | src/components/BudgetManagement.jsx:126 | `parseFloat(value) \|\| ''` keeps a parsed non-zero amount and leaves the field empty for an unparsable input or zero |
| BudgetManagement.SumAllocAppend | src/components/BudgetManagement.jsx:201-202 | the allocation total of two lists put together is the sum of their totals |
| BudgetManagement.AddEntryEffect | src/components/BudgetManagement.jsx:140-151 | a complete input is appended as one entry with nothing spent and raises the total by its allocation; an input without a name or allocation changes nothing |
| BudgetManagement.RemoveEntryEffect | src/components/BudgetManagement.jsx:154-161 | `splice(index, 1)` removes exactly the entry at the index, keeps the others in order and lowers the total by its allocation; an index past the end changes nothing |
| BudgetManagement.FindBudget | src/components/BudgetManagement.jsx:269-271 | the first budget with the id, or none exactly when no budget has it |
| BudgetManagement.SubmitChecks | src/components/BudgetManagement.jsx:197-266 | a submission is refused exactly when the category or department total differs from the amount, the category check first; an accepted budget's lists add up to its amount and its spent plus remaining is its amount |
| BudgetManagement.CreatedFresh | src/components/BudgetManagement.jsx:243-251 | a new budget gets the id `BUD-` and the list length plus one, padded to three digits, the form's amount, nothing spent, all of it remaining and status 'Active' |
| BudgetManagement.CreatedBudgetFixed | src/components/BudgetManagement.jsx:243-251 | corrected, the new budget's id is one no listed budget has, and the budget is the page's own while the ids run BUD-001, BUD-002, ... in order |
| BudgetManagement.EditedKeeps | src/components/BudgetManagement.jsx:226-233 | an edited budget keeps its id and the spent amount and non-empty status of the first budget with that id, falling back to 0 and 'Active' |
| BudgetManagement.EnabledSubmitAccepted | src/components/BudgetManagement.jsx:912-922 | whatever the enabled submit button sends passes both allocation checks |
| BudgetManagement.LeadingZero | src/components/BudgetManagement.jsx:247 | a leading zero does not change the number digits stand for |
| BudgetManagement.PadDigits | src/components/BudgetManagement.jsx:247 | `padStart(3, '0')` keeps a digit string's value |
| BudgetManagement.IdNumberOfBudgetId | src/components/BudgetManagement.jsx:247 | the number read back from "BUD-" and the padded digits is the number the id was made from |
| BudgetManagement.BudgetIdInjective | src/components/BudgetManagement.jsx:247 | different numbers give different ids |
| BudgetManagement.IdCollisionAsWritten | src/components/BudgetManagement.jsx:243-251 | as written, after BUD-001 is deleted from BUD-001 and BUD-002, the next budget gets BUD-002 again |
| BudgetManagement.SubmitAfterDeleteCollides | src/components/BudgetManagement.jsx:243-251 | as written, submitting a new budget after BUD-001 was deleted from BUD-001 and BUD-002 stores a budget with the id BUD-002, which the remaining budget already has |
| BudgetManagement.MaxIdNumber | src/components/BudgetManagement.jsx:247 | a non-negative bound on every id number in use |
| BudgetManagement.FreshBudgetIdUnused | src/components/BudgetManagement.jsx:247 | corrected, the new id is never one a listed budget has, and it is the page's id whenever the ids run BUD-001, BUD-002, ... in order |
| BudgetManagement.SequentialMax | src/components/BudgetManagement.jsx:247 | ids numbered 1 to n in order have n as their largest number |
| BudgetManagement.ProgressColorMonotone | src/components/BudgetManagement.jsx:317-327 | more spent never gets a better colour and more left never a worse one, with the 60/80 and 80/50 thresholds exactly as the bands' edges |
| BudgetManagement.ToggleSelection | src/components/BudgetManagement.jsx:296-298 | choosing the selected budget again clears the selection, choosing any other selects it |
| BudgetManagement.EditUnchanged | src/components/BudgetManagement.jsx:107-119 | submitting the edit form of a balanced budget unchanged stores the same budget with its remaining amount recomputed |
| BudgetManagement.BudgetPage.constructor | src/components/BudgetManagement.jsx:69-85 | the page starts with an empty form, closed dialog, empty inputs and no selection |
| BudgetManagement.BudgetPage.CreateBudget | src/components/BudgetManagement.jsx:93-104 | the dialog opens on an empty form in create mode |
| BudgetManagement.BudgetPage.EditBudget | src/components/BudgetManagement.jsx:107-119 | the dialog opens on the budget's own fields in edit mode |
| BudgetManagement.BudgetPage.AmountChange | src/components/BudgetManagement.jsx:122-128 | only the form's amount changes, to the parsed value or empty |
| BudgetManagement.BudgetPage.CategoryAllocationChange | src/components/BudgetManagement.jsx:131-137 | only the new category's allocation changes, to the parsed value or empty |
| BudgetManagement.BudgetPage.DepartmentAllocationChange | src/components/BudgetManagement.jsx:164-170 | only the new department's allocation changes, to the parsed value or empty |
| BudgetManagement.BudgetPage.AddCategory | src/components/BudgetManagement.jsx:140-151 | a complete input is appended to the categories and the input cleared; otherwise nothing changes |
| BudgetManagement.BudgetPage.RemoveCategory | src/components/BudgetManagement.jsx:154-161 | only the categories change, by removing the entry at the index |
| BudgetManagement.BudgetPage.AddDepartment | src/components/BudgetManagement.jsx:173-184 | a complete input is appended to the departments and the input cleared; otherwise nothing changes |
| BudgetManagement.BudgetPage.RemoveDepartment | src/components/BudgetManagement.jsx:187-194 | only the departments change, by removing the entry at the index |
| BudgetManagement.BudgetPage.SubmitBudget | src/components/BudgetManagement.jsx:197-266 | a refused form only reports its mismatch; an accepted edit replaces the budget in the store, an accepted creation appends it, and both close the dialog |
| BudgetManagement.BudgetPage.DeleteBudget | src/components/BudgetManagement.jsx:274-293 | on confirmation the store drops every budget with the id and the page reports it; without, nothing changes |
| BudgetManagement.BudgetPage.SelectBudget | src/components/BudgetManagement.jsx:296-298 | only the selection changes, toggled by the chosen budget |
| ExpenseReports.StatusColorCases | src/components/ExpenseReports.jsx:83-97 | the colour depends only on the lower-cased status, and each colour is given exactly to the statuses listed for it |
| ExpenseReports.Slice | src/components/ExpenseReports.jsx:323 | `slice` clamps both bounds to the list, yields the elements from the start on, and nothing when the start is at or past the end |
| ExpenseReports.ReportOnItsPage | src/components/ExpenseReports.jsx:321-323 | report `i` is shown on page `i / rowsPerPage` at row `i % rowsPerPage`, and no page shows more than `rowsPerPage` rows |
| ExpenseReports.PageFilled | src/components/ExpenseReports.jsx:321-323 | on a later page that starts within the list, shown rows and blank rows add up to exactly `rowsPerPage` |
| ExpenseReports.StepperInverse | src/components/ExpenseReports.jsx:145-184 | Next and Back keep the step in 0..2, undo each other wherever the step moved, and stand still exactly at the last and first step |
| ExpenseReports.NextNeedsPaymentDetails | src/components/ExpenseReports.jsx:933-937 | leaving the payment step is possible only with a method, with an account when the method needs one, and while no payment is processing |
| ExpenseReports.ReportsPage.constructor | src/components/ExpenseReports.jsx:64-75 | the page starts on page 0 with 10 rows, no report selected, every dialog closed, an empty payment form and no payment timer running |
| ExpenseReports.ReportsPage.ReportsChanged | src/components/ExpenseReports.jsx:78-80 | a change to the reports sends the table back to page 0 |
| ExpenseReports.ReportsPage.ViewDetails | src/components/ExpenseReports.jsx:100-103 | the report is selected and the details dialog opens |
| ExpenseReports.ReportsPage.CloseDetails | src/components/ExpenseReports.jsx:106-110 | the details dialog closes and the selection stays |
| ExpenseReports.ReportsPage.ChangePage | src/components/ExpenseReports.jsx:113-115 | only the page changes |
| ExpenseReports.ReportsPage.ChangeRowsPerPage | src/components/ExpenseReports.jsx:117-120 | the page size changes and the table goes back to page 0 |
| ExpenseReports.ReportsPage.OpenReimbursement | src/components/ExpenseReports.jsx:123-133 | the report is selected and the dialog opens on step 0 with empty method, account and note, neither processing nor complete |
| ExpenseReports.ReportsPage.CloseReimbursement | src/components/ExpenseReports.jsx:136-142 | the reimbursement dialog closes and nothing else changes |
| ExpenseReports.ReportsPage.Next | src/components/ExpenseReports.jsx:145-177 | before the last step Next moves one step on; on the last step it starts processing, clears the complete flag and queues a timer holding the selected report, method, account and note of this moment |
| ExpenseReports.ReportsPage.PaymentProcessed | src/components/ExpenseReports.jsx:154-175 | the oldest timer fires: the page shows the payment complete and, when a report was selected at the click, the store sets that report 'reimbursed' with the method, account and note of the click, whatever the page holds now |
| ExpenseReports.ReportsPage.Back | src/components/ExpenseReports.jsx:180-184 | Back moves one step back, never below the first |
| ExpenseReports.ReportsPage.PaymentMethodChange | src/components/ExpenseReports.jsx:187-193 | the method is set, and the account is cleared unless the method is Direct Deposit or Wire Transfer |
| ExpenseReports.ReportsPage.BankAccountChange | src/components/ExpenseReports.jsx:196-198 | only the account changes |
| ExpenseReports.ReportsPage.PaymentNoteChange | src/components/ExpenseReports.jsx:863 | only the note changes |
| ExpenseReports.ReportsPage.OpenApprove | src/components/ExpenseReports.jsx:221-224 | the report is selected and the approval dialog opens |
| ExpenseReports.ReportsPage.CloseApprove | src/components/ExpenseReports.jsx:227-231 | the approval dialog closes and the selection stays |
| ExpenseReports.ReportsPage.ApproveReport | src/components/ExpenseReports.jsx:234-250 | a selected report is set 'approved' in the store with the finance manager as approver; the dialog closes either way |
| ExpenseReports.ReportsPage.RejectReport | src/components/ExpenseReports.jsx:253-270 | a selected report is set 'rejected' in the store with the fixed reason; the dialog closes either way |
| Policies.FindPolicy | src/components/PolicyDocumentUpload.jsx:228-230 | `findIndex` by id: none exactly when no policy has the id, otherwise the first position holding it |
| Ledger.ReceiptOf | src/components/DataContext.jsx:740-749 | the receipt put back when a link is undone carries the transaction's receipt id and merchant and is 'Unmatched' again |

## Left out

- Text handling is ASCII only. Lower-casing, whitespace and Python's `\w` are
  modelled for ASCII characters. Unicode case mapping and the full regex
  classes are not modelled.
- Floating point is not modelled. Amounts are integer cents and confidences
  are hundredths. `toFixed`, `toLocaleString`, the budget utilisation
  percentages and date parsing are left out.
- `getProgressColor` takes a `real` percentage. The computation of that
  percentage is not modelled.
- The wall clock and generated ids are parameters. This covers `new Date()`,
  `Date.now()`, and the `R-…`, `REP-…` and `EXP-…` ids: the caller passes
  `now` or the new id.
- Timers, snackbars, `localStorage` writes, `navigate` and console logging
  are left out. A handler's delayed part is modelled as the step that
  follows it; for example `ExpenseReports.ReportsPage.PaymentProcessed` ends
  a payment. The values the payment timer closes over are recorded by
  `ExpenseReports.ReportsPage.Next` in the page's `pending` queue.
- React effects that depend on store data are separate methods, not part of
  the handlers that change that data. Each handler named in the next ten
  lines ends in the state before its effect runs, and the effect is the
  step that follows it.
- DataStore.Store.UpdateTransactionStatus: leaves the budgets as they
  were. On the page, the effect at `DataContext.jsx:564-643` then
  recomputes every budget, which is `DataStore.Store.RecomputeBudgets`. On
  the report composer, the effect at `CreateReport.jsx:96-98` then refills
  the candidate list, which is `CreateReport.ReportComposer.TransactionsChanged`.
- DataStore.Store.MatchTransactionWithReceipt: the same; the budget
  recompute is `DataStore.Store.RecomputeBudgets` and the refill is
  `CreateReport.ReportComposer.TransactionsChanged`.
- DataStore.Store.UnmatchTransaction: the same; the budget recompute is
  `DataStore.Store.RecomputeBudgets` and the refill is
  `CreateReport.ReportComposer.TransactionsChanged`.
- CreateReport.ReportComposer.MatchTransaction: keeps the candidate list
  it had. The effect at `CreateReport.jsx:96-98` then refills it from the
  changed transactions, which is `CreateReport.ReportComposer.TransactionsChanged`.
- CreateReport.ReportComposer.UnmatchTransaction: the same; the refill is
  `CreateReport.ReportComposer.TransactionsChanged`.
- ExpenseReports.ReportsPage.ApproveReport: leaves the page number as it
  was. The effect at `ExpenseReports.jsx:78-80` then resets it to 0, which
  is `ExpenseReports.ReportsPage.ReportsChanged`.
- ExpenseReports.ReportsPage.RejectReport: the same; the reset is
  `ExpenseReports.ReportsPage.ReportsChanged`.
- ExpenseReports.ReportsPage.PaymentProcessed: the same; the reset is
  `ExpenseReports.ReportsPage.ReportsChanged`.
- DataStore.Store.AddToReport: leaves the composer's match map as it was.
  The effect at `CreateReport.jsx:100-109` then empties it, which is
  `CreateReport.ReportComposer.ItemsChanged`.
- DataStore.Store.RemoveFromReport: the same; the rebuild is
  `CreateReport.ReportComposer.ItemsChanged`.
- The document page keys its selection by the string made of the document
  index, '-' and the policy id, and splits it on '-' again
  (`PolicyDocumentUpload.jsx:256`, `:273` and `:316`). The model keys the
  selection by the pair (`PolicyDocuments.SelKey`). So the split, which
  would cut a policy id containing '-', is not modelled. It cannot be
  observed: the back end renumbers every policy `p1`, `p2`, ...
  (`PolicyExtractor.ReassignIds`).
- The `window.confirm` answer is a parameter (`confirmed`).
- `validateURL` relies on the browser's `URL` parser, which is not part of
  this model; it is a parameter (`valid`).
- The extraction services (`extractPoliciesFromURL`, `extractPoliciesFromPdf`)
  are network calls. Their answers are parameters (`outcome`, `outcomes`).
- The value read from storage is a parameter of the rule loaders. JSON
  parsing is not modelled: a parse failure is the `Malformed` case.
- `updateDashboardData`, `updateCard`, `addCard` and `addTransaction` in the
  store are not modelled. They are either clock-dependent dashboard figures
  or plain appends outside the reconciliation logic.
- Some handlers only open or close dialogs, or save, reload and switch
  views. These are not modelled:
  - in `PolicySettingsPage.jsx`: `handleSave`, `handleCancel`,
    `handleTabChange`, unsaved-changes tracking and the view
    description/icon helpers;
  - in `CorporateCardIntegration.jsx`: `handleSync` and the notification
    handlers;
  - in `CreateReport.jsx`: `handleSelectItem`, `handleSelectAll`,
    `handleRemoveSelected` and `handleCostCodeChange`;
  - in `ExpenseReports.jsx`: `formatDate` and the card icon helper.
- Loading flags and the currently-processing file name are not modelled.
- Object identity is not modelled: records are compared by value. The one
  place it matters, `handleSelectBudget`'s `===`, compares a budget with
  itself from the same list.
- PolicyUrl.UrlPanel.ApproveSelected: the approved flags are set on a copy
  of the list. In the page they are also visible through the objects shared
  with the old list, which no later step reads.
- PolicyDocuments.DocumentPanel.TogglePolicy: requires the document index to
  name a listed document. The page only passes indices of listed documents.
- PolicyDocuments.DocumentPanel.SaveEdit: requires the document index to
  name a listed document. The page only passes indices of listed documents.
- PolicyUrl.UrlPanel.PolicySelection: requires the position to be in the
  list. The checkboxes only exist for listed policies.
- PolicyUrl.UrlPanel.SaveEdit: requires the position to be in the list. The
  edit dialog only opens on listed policies.
- PolicySettings.RuleEditor.EditRule: requires the index to be in the
  current list. Only displayed rules can be edited.
- PolicySettings.RuleEditor.DragOver: requires the dragged and target
  indices to be in the current list. Only displayed rules can be dragged.
- CardIntegration.CardLedger.CardTabChange: requires the tab to be at most
  the number of cards. There is one tab per card plus 'all'.
- PolicySettings.RuleEditor.constructor: a saved string, or an object that
  is not a three-level store (a leaf at the top level, a non-array value
  inside a two-level object), is kept as it is by the page and read through
  JavaScript property lookups on strings and mixed objects. The model starts
  the editor on the empty store instead. Only this page writes the storage
  key, and it always writes a three-level store.
- BudgetManagement.BudgetPage.SubmitBudget: requires both dates to be
  present. The submit button is disabled without them.

## Findings

| source | as written | input that shows it | evidently intended | confidence | as-written member | corrected member |
|---|---|---|---|---|---|---|
| src/components/BudgetManagement.jsx:247 | a new budget's id is `BUD-` and the list length plus one, padded to three digits | budgets BUD-001 and BUD-002; delete BUD-001; create a budget: it gets BUD-002, the id of the one left | a new budget gets an id no listed budget has | not executed | BudgetManagement.SubmitAfterDeleteCollides | BudgetManagement.CreatedBudgetFixed |
| src/components/RightPanel.jsx:58-74 | the three-level walk calls `forEach` on whatever it meets at each level | a saved two-level object `{global: {meals: ["Receipts are required"]}}`: the walk iterates the array by index, calls `forEach` on a string, throws, and the catch returns the 8 default rules, so the two-level fallback (lines 77-92) is never reached with rules | values of the wrong kind are skipped, so a two-level object yields its own rules | not executed | RightPanel.TwoLevelExample | RightPanel.TwoLevelKeptFixed |
| backend/expensereportextractor.py:319-321 | the wildcard labels test `country == 'Global'`, `seniority == 'All'` and `expenseType == 'All'`, in capitals | a rule tagged global/all/all, the lower-case tags the rule store always uses: it is described as applying to "global", to "all level employees" and to "all expenses" instead of "All countries", "All employee levels" and "All expense categories" | the lower-case tags get the wildcard wording | not executed | PolicyExtractor.LowerCaseWildcardsAsWritten | PolicyExtractor.WildcardsDescribedFixed |
