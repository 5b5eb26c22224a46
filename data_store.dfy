/** The in-memory store shared by every page: card transactions, receipts not yet
    matched, the expense items queued for the report being composed, submitted
    reports, cards and budgets. Each operation replaces some of these lists. */
module DataStore {
  import opened Basics
  import opened Seqs
  import opened Ledger

  /** The whole store as one value. */
  datatype StoreState = StoreState(
    transactions: seq<Transaction>,
    unmatchedReceipts: seq<Receipt>,
    reportItems: seq<ExpenseItem>,
    reports: seq<Report>,
    budgets: seq<Budget>,
    cards: seq<Card>)

  /** `updateTransactionStatus`: every transaction carrying the id gets the new
      status and receipt fields; every other one, and the order, stay as they were. */
  function SetTxStatus(txs: seq<Transaction>, id: string, status: TxStatus,
                       receiptId: Option<string>, receiptStatus: Option<string>): (r: seq<Transaction>)
    ensures |r| == |txs|
    ensures forall k :: 0 <= k < |txs| && txs[k].id != id ==> r[k] == txs[k]
    ensures forall k :: 0 <= k < |txs| && txs[k].id == id ==>
      r[k] == txs[k].(status := status, receiptId := receiptId, receiptStatus := receiptStatus)
  {
    if txs == [] then []
    else
      var head := if txs[0].id == id
        then txs[0].(status := status, receiptId := receiptId, receiptStatus := receiptStatus)
        else txs[0];
      [head] + SetTxStatus(txs[1..], id, status, receiptId, receiptStatus)
  }

  /** A second status update on the same id overrides the first one. */
  lemma SetTxStatusTwice(txs: seq<Transaction>, id: string,
                         s1: TxStatus, r1: Option<string>, rs1: Option<string>,
                         s2: TxStatus, r2: Option<string>, rs2: Option<string>)
    ensures SetTxStatus(SetTxStatus(txs, id, s1, r1, rs1), id, s2, r2, rs2) == SetTxStatus(txs, id, s2, r2, rs2)
  {
  }

  /** Every transaction carrying the id is unmatched with no receipt. */
  predicate AllUnmatched(txs: seq<Transaction>, id: string) {
    forall k :: 0 <= k < |txs| && txs[k].id == id ==>
      txs[k].status == Unmatched && txs[k].receiptId == None && txs[k].receiptStatus == None
  }

  lemma SetTxStatusUnmatchedNoop(txs: seq<Transaction>, id: string)
    requires AllUnmatched(txs, id)
    ensures SetTxStatus(txs, id, Unmatched, None, None) == txs
  {
  }

  /** `transactions.find(tx => tx.id === id)`: the first transaction with the id. */
  function FindTx(txs: seq<Transaction>, id: string): (r: Option<Transaction>)
    ensures r.None? <==> forall k :: 0 <= k < |txs| ==> txs[k].id != id
    ensures r.Some? ==> r.value.id == id
  {
    if txs == [] then None
    else if txs[0].id == id then Some(txs[0])
    else FindTx(txs[1..], id)
  }

  /** The transaction found is the one at the first position carrying the id. */
  lemma {:induction false} FindTxIsFirst(txs: seq<Transaction>, id: string)
    requires FindTx(txs, id).Some?
    ensures exists k :: (0 <= k < |txs| && txs[k] == FindTx(txs, id).value &&
                         forall j :: 0 <= j < k ==> txs[j].id != id)
  {
    if txs[0].id != id {
      FindTxIsFirst(txs[1..], id);
      var k :| 0 <= k < |txs[1..]| && txs[1..][k] == FindTx(txs[1..], id).value &&
        forall j :: 0 <= j < k ==> txs[1..][j].id != id;
      assert txs[k + 1] == txs[1..][k];
    }
  }

  lemma FindAfterSet(txs: seq<Transaction>, id: string, t: Transaction, status: TxStatus,
                     receiptId: Option<string>, receiptStatus: Option<string>)
    requires FindTx(txs, id) == Some(t)
    ensures FindTx(SetTxStatus(txs, id, status, receiptId, receiptStatus), id) ==
      Some(t.(status := status, receiptId := receiptId, receiptStatus := receiptStatus))
  {
    var txs' := SetTxStatus(txs, id, status, receiptId, receiptStatus);
    FindTxIsFirst(txs, id);
    var k :| 0 <= k < |txs| && txs[k] == t && forall j :: 0 <= j < k ==> txs[j].id != id;
    FindTxIsFirst(txs', id);
    var k' :| 0 <= k' < |txs'| && txs'[k'] == FindTx(txs', id).value && forall j :: 0 <= j < k' ==> txs'[j].id != id;
    assert k' == k;
  }

  function NotReceipt(id: string): Receipt -> bool {
    (r: Receipt) => r.id != id
  }

  function NotItem(id: string): ExpenseItem -> bool {
    (it: ExpenseItem) => it.id != id
  }

  function NotBudget(id: string): Budget -> bool {
    (b: Budget) => b.id != id
  }

  /** `matchTransactionWithReceipt`. */
  function MatchWithReceipt(s: StoreState, txId: string, receiptId: string): (s': StoreState)
    ensures s'.unmatchedReceipts == Filter(s.unmatchedReceipts, NotReceipt(receiptId))
    ensures forall k :: 0 <= k < |s'.unmatchedReceipts| ==> s'.unmatchedReceipts[k].id != receiptId
    ensures forall k :: 0 <= k < |s'.transactions| && s'.transactions[k].id == txId ==>
      s'.transactions[k].status == Matched && s'.transactions[k].receiptId == Some(receiptId) &&
      s'.transactions[k].receiptStatus == Some("Verified")
    ensures s'.reportItems == s.reportItems && s'.reports == s.reports &&
      s'.budgets == s.budgets && s'.cards == s.cards
  {
    s.(transactions := SetTxStatus(s.transactions, txId, Matched, Some(receiptId), Some("Verified")),
       unmatchedReceipts := Filter(s.unmatchedReceipts, NotReceipt(receiptId)))
  }

  /** `unmatchTransaction`: nothing happens unless the first transaction with the
      id exists and carries a receipt id; then the receipt is rebuilt from the
      transaction at the FRONT of the pool and the transaction is reset. */
  function Unmatch(s: StoreState, txId: string): (s': StoreState)
    ensures s'.reportItems == s.reportItems && s'.reports == s.reports &&
      s'.budgets == s.budgets && s'.cards == s.cards
    ensures (FindTx(s.transactions, txId).None? || !HasReceipt(FindTx(s.transactions, txId).value)) ==> s' == s
    ensures FindTx(s.transactions, txId).Some? && HasReceipt(FindTx(s.transactions, txId).value) ==>
      s'.unmatchedReceipts == [ReceiptOf(FindTx(s.transactions, txId).value)] + s.unmatchedReceipts &&
      s'.transactions == SetTxStatus(s.transactions, txId, Unmatched, None, None)
  {
    match FindTx(s.transactions, txId)
    case Some(tx) =>
      if HasReceipt(tx) then
        s.(unmatchedReceipts := [ReceiptOf(tx)] + s.unmatchedReceipts,
           transactions := SetTxStatus(s.transactions, txId, Unmatched, None, None))
      else s
    case None => s
  }

  /** Matching an unmatched transaction and then unmatching it restores the
      transaction list exactly, and leaves a receipt with the matched id at the
      front of the pool. */
  lemma MatchThenUnmatch(s: StoreState, txId: string, receiptId: string)
    requires receiptId != ""
    requires FindTx(s.transactions, txId).Some?
    requires AllUnmatched(s.transactions, txId)
    ensures var t := FindTx(s.transactions, txId).value;
      Unmatch(MatchWithReceipt(s, txId, receiptId), txId) ==
      s.(unmatchedReceipts := [Receipt(receiptId, t.date, t.merchantName, t.amount, t.category, "Unmatched")]
                              + Filter(s.unmatchedReceipts, NotReceipt(receiptId)))
  {
    var t := FindTx(s.transactions, txId).value;
    var s1 := MatchWithReceipt(s, txId, receiptId);
    FindAfterSet(s.transactions, txId, t, Matched, Some(receiptId), Some("Verified"));
    SetTxStatusTwice(s.transactions, txId, Matched, Some(receiptId), Some("Verified"), Unmatched, None, None);
    SetTxStatusUnmatchedNoop(s.transactions, txId);
  }

  /** `updateReportStatus`, without the wall-clock `updatedAt` stamp. */
  function SetReportStatus(reports: seq<Report>, id: string, status: string,
                           details: Option<ApprovalDetails>): (r: seq<Report>)
    ensures |r| == |reports|
    ensures forall k :: 0 <= k < |reports| && reports[k].id != id ==> r[k] == reports[k]
    ensures forall k :: 0 <= k < |reports| && reports[k].id == id ==>
      r[k] == reports[k].(status := status, approvalDetails := details)
  {
    if reports == [] then []
    else
      var head := if reports[0].id == id then reports[0].(status := status, approvalDetails := details) else reports[0];
      [head] + SetReportStatus(reports[1..], id, status, details)
  }

  /** `updateBudget`: every budget with the updated one's id is replaced by it. */
  function ReplaceBudget(budgets: seq<Budget>, updated: Budget): (r: seq<Budget>)
    ensures |r| == |budgets|
    ensures forall k :: 0 <= k < |budgets| ==>
      r[k] == if budgets[k].id == updated.id then updated else budgets[k]
  {
    if budgets == [] then []
    else [if budgets[0].id == updated.id then updated else budgets[0]] + ReplaceBudget(budgets[1..], updated)
  }

  // ---- budget spending (the effect that recomputes budgets) ----

  predicate InWindow(b: Budget, tx: Transaction) {
    b.startDate <= tx.date <= b.endDate
  }

  /** Total of the transactions dated inside the budget window, bounds included. */
  function Spent(b: Budget, txs: seq<Transaction>): int {
    if txs == [] then 0
    else (if InWindow(b, txs[0]) then txs[0].amount else 0) + Spent(b, txs[1..])
  }

  /** The category names a transaction category counts towards. */
  predicate CategoryMatches(txCategory: string, name: string) {
    txCategory == name
    || (txCategory == "Travel" && name == "Flights")
    || (txCategory == "Lodging" && name == "Accommodations")
  }

  function CategorySpent(b: Budget, name: string, txs: seq<Transaction>): int {
    if txs == [] then 0
    else
      var here := if InWindow(b, txs[0]) && CategoryMatches(txs[0].category, name) then txs[0].amount else 0;
      here + CategorySpent(b, name, txs[1..])
  }

  /** `cards.find(c => c.cardNumber === cardNumber)`. */
  function FindCard(cards: seq<Card>, cardNumber: string): (r: Option<Card>)
    ensures r.Some? ==> r.value in cards && r.value.cardNumber == cardNumber
    ensures r.None? ==> forall k :: 0 <= k < |cards| ==> cards[k].cardNumber != cardNumber
  {
    if cards == [] then None
    else if cards[0].cardNumber == cardNumber then Some(cards[0])
    else FindCard(cards[1..], cardNumber)
  }

  predicate InDepartment(cards: seq<Card>, tx: Transaction, name: string) {
    var card := FindCard(cards, tx.cardNumber);
    card.Some? && card.value.department == name
  }

  function DepartmentSpent(b: Budget, name: string, txs: seq<Transaction>, cards: seq<Card>): int {
    if txs == [] then 0
    else
      var here := if InWindow(b, txs[0]) && InDepartment(cards, txs[0], name) then txs[0].amount else 0;
      here + DepartmentSpent(b, name, txs[1..], cards)
  }

  function InWindowOf(b: Budget): Transaction -> bool {
    tx => InWindow(b, tx)
  }

  function Amounts(txs: seq<Transaction>): (r: seq<int>)
    ensures |r| == |txs| && forall k :: 0 <= k < |txs| ==> r[k] == txs[k].amount
  {
    seq(|txs|, k requires 0 <= k < |txs| => txs[k].amount)
  }

  /** The spent figure is the sum of the amounts of the in-window transactions. */
  lemma {:induction false} SpentIsSumOfWindow(b: Budget, txs: seq<Transaction>)
    ensures Spent(b, txs) == Sum(Amounts(Filter(txs, InWindowOf(b))))
  {
    if txs != [] {
      var keep := InWindowOf(b);
      var rest := Filter(txs[1..], keep);
      SpentIsSumOfWindow(b, txs[1..]);
      assert keep(txs[0]) == InWindow(b, txs[0]);
      if InWindow(b, txs[0]) {
        assert Filter(txs, keep) == [txs[0]] + rest;
        var a := Amounts([txs[0]] + rest);
        assert a[0] == txs[0].amount;
        assert a[1..] == Amounts(rest);
      } else {
        assert Filter(txs, keep) == rest;
      }
    }
  }

  /** With non-negative amounts, a category or a department never spends more than the budget. */
  lemma {:induction false} PartsWithinSpent(b: Budget, name: string, txs: seq<Transaction>, cards: seq<Card>)
    requires forall k :: 0 <= k < |txs| ==> txs[k].amount >= 0
    ensures 0 <= CategorySpent(b, name, txs) <= Spent(b, txs)
    ensures 0 <= DepartmentSpent(b, name, txs, cards) <= Spent(b, txs)
  {
    if txs != [] {
      PartsWithinSpent(b, name, txs[1..], cards);
    }
  }

  /** A budget after the recompute effect. */
  function Recompute(b: Budget, txs: seq<Transaction>, cards: seq<Card>): (r: Budget)
    ensures r.spent == Spent(b, txs) && r.remaining == b.amount - r.spent
    ensures r.id == b.id && r.amount == b.amount && r.startDate == b.startDate && r.endDate == b.endDate
    ensures r.name == b.name && r.status == b.status
    ensures |r.categories| == |b.categories| && |r.departments| == |b.departments|
    ensures forall k :: 0 <= k < |b.categories| ==>
      r.categories[k] == b.categories[k].(spent := CategorySpent(b, b.categories[k].name, txs))
    ensures forall k :: 0 <= k < |b.departments| ==>
      r.departments[k] == b.departments[k].(spent := DepartmentSpent(b, b.departments[k].name, txs, cards))
  {
    var spent := Spent(b, txs);
    b.(spent := spent,
       remaining := b.amount - spent,
       categories := seq(|b.categories|, k requires 0 <= k < |b.categories| =>
         b.categories[k].(spent := CategorySpent(b, b.categories[k].name, txs))),
       departments := seq(|b.departments|, k requires 0 <= k < |b.departments| =>
         b.departments[k].(spent := DepartmentSpent(b, b.departments[k].name, txs, cards))))
  }

  /** Every budget recomputed against the same transactions and cards. */
  function RecomputeAll(budgets: seq<Budget>, txs: seq<Transaction>, cards: seq<Card>): (r: seq<Budget>)
    ensures |r| == |budgets|
    ensures forall k :: 0 <= k < |budgets| ==> r[k] == Recompute(budgets[k], txs, cards)
  {
    seq(|budgets|, k requires 0 <= k < |budgets| => Recompute(budgets[k], txs, cards))
  }

  class Store {
    var transactions: seq<Transaction>
    var unmatchedReceipts: seq<Receipt>
    var reportItems: seq<ExpenseItem>
    var reports: seq<Report>
    var budgets: seq<Budget>
    var cards: seq<Card>

    function State(): StoreState
      reads this
    {
      StoreState(transactions, unmatchedReceipts, reportItems, reports, budgets, cards)
    }

    constructor (s: StoreState)
      ensures State() == s
    {
      transactions := s.transactions;
      unmatchedReceipts := s.unmatchedReceipts;
      reportItems := s.reportItems;
      reports := s.reports;
      budgets := s.budgets;
      cards := s.cards;
    }

    method UpdateTransactionStatus(id: string, status: TxStatus, receiptId: Option<string>, receiptStatus: Option<string>)
      modifies this
      ensures State() == old(State()).(transactions := SetTxStatus(old(transactions), id, status, receiptId, receiptStatus))
    {
      transactions := SetTxStatus(transactions, id, status, receiptId, receiptStatus);
    }

    method RemoveUnmatchedReceipt(receiptId: string)
      modifies this
      ensures State() == old(State()).(unmatchedReceipts := Filter(old(unmatchedReceipts), NotReceipt(receiptId)))
    {
      unmatchedReceipts := Filter(unmatchedReceipts, NotReceipt(receiptId));
    }

    method AddUnmatchedReceipt(receipt: Receipt)
      modifies this
      ensures State() == old(State()).(unmatchedReceipts := [receipt] + old(unmatchedReceipts))
    {
      unmatchedReceipts := [receipt] + unmatchedReceipts;
    }

    method MatchTransactionWithReceipt(txId: string, receiptId: string)
      modifies this
      ensures State() == MatchWithReceipt(old(State()), txId, receiptId)
    {
      UpdateTransactionStatus(txId, Matched, Some(receiptId), Some("Verified"));
      RemoveUnmatchedReceipt(receiptId);
    }

    method UnmatchTransaction(txId: string)
      modifies this
      ensures State() == Unmatch(old(State()), txId)
    {
      var found := FindTx(transactions, txId);
      if found.Some? && HasReceipt(found.value) {
        AddUnmatchedReceipt(ReceiptOf(found.value));
        UpdateTransactionStatus(txId, Unmatched, None, None);
      }
    }

    /** `addReport`: the new report goes first and the report queue is emptied. */
    method AddReport(report: Report)
      modifies this
      ensures State() == old(State()).(reports := [report] + old(reports), reportItems := [])
    {
      reports := [report] + reports;
      reportItems := [];
    }

    method AddToReport(item: ExpenseItem)
      modifies this
      ensures State() == old(State()).(reportItems := old(reportItems) + [item])
    {
      reportItems := reportItems + [item];
    }

    method RemoveFromReport(itemId: string)
      modifies this
      ensures State() == old(State()).(reportItems := Filter(old(reportItems), NotItem(itemId)))
    {
      reportItems := Filter(reportItems, NotItem(itemId));
    }

    method UpdateReportStatus(reportId: string, status: string, details: Option<ApprovalDetails>)
      modifies this
      ensures State() == old(State()).(reports := SetReportStatus(old(reports), reportId, status, details))
    {
      reports := SetReportStatus(reports, reportId, status, details);
    }

    method UpdateBudget(updated: Budget)
      modifies this
      ensures State() == old(State()).(budgets := ReplaceBudget(old(budgets), updated))
    {
      budgets := ReplaceBudget(budgets, updated);
    }

    method AddBudget(budget: Budget)
      modifies this
      ensures State() == old(State()).(budgets := old(budgets) + [budget])
    {
      budgets := budgets + [budget];
    }

    method DeleteBudget(budgetId: string)
      modifies this
      ensures State() == old(State()).(budgets := Filter(old(budgets), NotBudget(budgetId)))
    {
      budgets := Filter(budgets, NotBudget(budgetId));
    }

    /** The effect that runs whenever transactions or cards change. */
    method RecomputeBudgets()
      modifies this
      ensures State() == old(State()).(budgets := RecomputeAll(old(budgets), transactions, cards))
    {
      budgets := RecomputeAll(budgets, transactions, cards);
    }
  }
}
