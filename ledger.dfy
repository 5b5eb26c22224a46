/** The records the expense console keeps in memory: card transactions,
    receipts waiting for a transaction, expense items of the report being
    composed, submitted reports, cards and budgets. Money is in integer cents
    and dates are day numbers (the source only ever holds `YYYY-MM-DD` dates). */
module Ledger {
  import opened Basics

  datatype TxStatus = Matched | Unmatched

  datatype Transaction = Transaction(
    id: string,
    date: int,
    merchantName: string,
    category: string,
    amount: int,
    status: TxStatus,
    cardNumber: string,
    accountName: string,
    receiptStatus: Option<string>,
    receiptId: Option<string>)

  /** `if (tx.receiptId)`: a receipt id that is present and not the empty string. */
  predicate HasReceipt(tx: Transaction) {
    tx.receiptId.Some? && tx.receiptId.value != ""
  }

  datatype Receipt = Receipt(
    id: string,
    date: int,
    vendor: string,
    amount: int,
    category: string,
    status: string)

  /** The receipt the store rebuilds from a transaction when the link is undone. */
  function ReceiptOf(tx: Transaction): (r: Receipt)
    requires HasReceipt(tx)
    ensures r.id == tx.receiptId.value && r.vendor == tx.merchantName && r.status == "Unmatched"
  {
    Receipt(tx.receiptId.value, tx.date, tx.merchantName, tx.amount, tx.category, "Unmatched")
  }

  /** An extracted expense line queued for the report being composed. */
  datatype ExpenseItem = ExpenseItem(
    id: string,
    date: int,
    vendor: string,
    total: int,
    currency: string,
    expenseType: string)

  datatype CardInfo = CardInfo(cardNumber: string, accountName: string)

  /** One line of a submitted report: the expense, its USD amount and its match. */
  datatype ReportLine = ReportLine(
    item: ExpenseItem,
    amountUSD: int,
    matchedTransactionId: Option<string>,
    cardNumber: Option<string>,
    accountName: Option<string>)

  /** What a status change records: a reimbursement's payment, or the
      finance manager's approval or rejection. */
  datatype ApprovalDetails =
    | Reimbursement(date: string, paymentMethod: string, account: string, note: string)
    | Approval(date: string, approver: string)
    | Rejection(date: string, approver: string, reason: string)

  datatype Report = Report(
    id: string,
    title: string,
    description: string,
    costCode: string,
    cardInfo: Option<CardInfo>,
    items: seq<ReportLine>,
    totalAmount: int,
    status: string,
    approvalDetails: Option<ApprovalDetails>)

  datatype Card = Card(id: string, cardNumber: string, cardHolder: string, department: string)

  /** A category or department share of a budget. */
  datatype Allocation = Allocation(name: string, allocation: int, spent: int)

  datatype Budget = Budget(
    id: string,
    name: string,
    startDate: int,
    endDate: int,
    amount: int,
    spent: int,
    remaining: int,
    status: string,
    categories: seq<Allocation>,
    departments: seq<Allocation>)
}
