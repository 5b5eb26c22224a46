/** The expense-reports page: the status chip colours, the table's
    pagination, the three-step reimbursement dialog that ends by marking a
    report reimbursed in the shared store, and the finance manager's
    approve/reject dialog. */
module ExpenseReports {
  import opened Basics
  import opened Text
  import opened Ledger
  import opened DataStore

  datatype Chip = Success | Warning | Error | Info | Default

  /** `getStatusColor`: the status is compared in lower case; a missing
      status gets the default colour. */
  function StatusColor(status: Option<string>): Chip {
    if status.None? then Default
    else
      var s := Lower(status.value);
      if s == "approved" then Success
      else if s == "pending" || s == "submitted" then Warning
      else if s == "rejected" then Error
      else if s == "reimbursed" then Info
      else Default
  }

  /** The colour depends only on the lower-cased status, and each colour
      belongs to exactly the statuses listed for it. */
  lemma StatusColorCases(s: string)
    ensures StatusColor(Some(s)) == StatusColor(Some(Lower(s)))
    ensures StatusColor(Some(s)) == Success <==> Lower(s) == "approved"
    ensures StatusColor(Some(s)) == Warning <==> Lower(s) == "pending" || Lower(s) == "submitted"
    ensures StatusColor(Some(s)) == Error <==> Lower(s) == "rejected"
    ensures StatusColor(Some(s)) == Info <==> Lower(s) == "reimbursed"
  {
    LowerIdempotent(s);
  }

  // ---- pagination ----

  function Min(a: int, b: int): int {
    if a <= b then a else b
  }

  /** `s.slice(start, end)` for non-negative bounds: both are clamped to the
      length, and a start at or past the end gives the empty list. */
  function Slice<T>(s: seq<T>, start: nat, end: nat): (r: seq<T>)
    ensures |r| == if Min(start, |s|) <= Min(end, |s|) then Min(end, |s|) - Min(start, |s|) else 0
    ensures forall k :: 0 <= k < |r| ==> r[k] == s[start + k]
  {
    var a := Min(start, |s|);
    var b := Min(end, |s|);
    if a <= b then s[a..b] else []
  }

  /** The reports shown on `page`. */
  function VisibleReports(reports: seq<Report>, page: nat, rowsPerPage: nat): seq<Report> {
    Slice(reports, page * rowsPerPage, page * rowsPerPage + rowsPerPage)
  }

  /** The blank rows that keep a later page as tall as a full one. */
  function EmptyRows(page: nat, rowsPerPage: nat, count: nat): nat {
    if page > 0 then
      if (1 + page) * rowsPerPage - count > 0 then (1 + page) * rowsPerPage - count else 0
    else 0
  }

  /** Every report is on page `i / rowsPerPage`, at row `i % rowsPerPage`,
      and no page holds more than `rowsPerPage` rows. */
  lemma ReportOnItsPage(reports: seq<Report>, rowsPerPage: nat, i: nat)
    requires rowsPerPage > 0 && i < |reports|
    ensures i % rowsPerPage < |VisibleReports(reports, i / rowsPerPage, rowsPerPage)|
    ensures VisibleReports(reports, i / rowsPerPage, rowsPerPage)[i % rowsPerPage] == reports[i]
    ensures forall p: nat :: |VisibleReports(reports, p, rowsPerPage)| <= rowsPerPage
  {
    var p := i / rowsPerPage;
    assert p * rowsPerPage + i % rowsPerPage == i;
  }

  /** A later page that starts within the list shows its reports and blank
      rows adding up to exactly `rowsPerPage`. */
  lemma PageFilled(reports: seq<Report>, page: nat, rowsPerPage: nat)
    requires page > 0 && page * rowsPerPage <= |reports|
    ensures |VisibleReports(reports, page, rowsPerPage)| + EmptyRows(page, rowsPerPage, |reports|) == rowsPerPage
  {
    assert (1 + page) * rowsPerPage == page * rowsPerPage + rowsPerPage;
  }

  // ---- reimbursement ----

  /** The methods for which an account is asked. */
  predicate NeedsAccount(m: string) {
    m == "Direct Deposit" || m == "Wire Transfer"
  }

  /** Who approves and rejects reports on this page. */
  const Approver := "Finance Manager"

  /** What the payment timer set by Next closes over: the selected report
      and the payment fields of the moment Next was clicked. */
  datatype PendingPayment = PendingPayment(report: Option<Report>, payMethod: string, account: string, note: string)

  datatype ReportsState = ReportsState(
    page: nat,
    rowsPerPage: nat,
    selectedReport: Option<Report>,
    detailsOpen: bool,
    reimbursementOpen: bool,
    approveOpen: bool,
    step: nat,
    paymentMethod: string,
    bankAccount: string,
    paymentNote: string,
    processing: bool,
    complete: bool,
    pending: seq<PendingPayment>)

  /** The dialog's stepper: Next moves forward until the last step, where it
      starts the payment instead; Back moves back down to the first step. */
  function NextStep(step: nat): nat {
    if step < 2 then step + 1 else step
  }

  function BackStep(step: nat): nat {
    if step > 0 then step - 1 else step
  }

  /** The step stays within the three steps, and Back undoes Next (and Next
      undoes Back) wherever the step actually moved. */
  lemma StepperInverse(step: nat)
    requires step <= 2
    ensures NextStep(step) <= 2 && BackStep(step) <= 2
    ensures step < 2 ==> BackStep(NextStep(step)) == step
    ensures step > 0 ==> NextStep(BackStep(step)) == step
    ensures NextStep(step) == step <==> step == 2
    ensures BackStep(step) == step <==> step == 0
  {
  }

  /** `disabled` of the Next button. */
  predicate NextDisabled(st: ReportsState) {
    (st.step == 1 && st.paymentMethod == "") ||
    (st.step == 1 && NeedsAccount(st.paymentMethod) && st.bankAccount == "") ||
    st.processing
  }

  /** From the payment step Next is only offered with a method, and with an
      account when the method needs one. */
  lemma NextNeedsPaymentDetails(st: ReportsState)
    requires st.step == 1 && !NextDisabled(st)
    ensures st.paymentMethod != "" && (NeedsAccount(st.paymentMethod) ==> st.bankAccount != "")
    ensures !st.processing
  {
  }

  class ReportsPage {
    var page: nat
    var rowsPerPage: nat
    var selectedReport: Option<Report>
    var detailsOpen: bool
    var reimbursementOpen: bool
    var approveOpen: bool
    var step: nat
    var paymentMethod: string
    var bankAccount: string
    var paymentNote: string
    var processing: bool
    var complete: bool
    /** The payment timers still running, oldest first. */
    var pending: seq<PendingPayment>

    function State(): ReportsState
      reads this
    {
      ReportsState(page, rowsPerPage, selectedReport, detailsOpen, reimbursementOpen, approveOpen,
                   step, paymentMethod, bankAccount, paymentNote, processing, complete, pending)
    }

    /** The stepper is on one of its three steps, and a payment is never
        processing and complete at once. */
    predicate Valid()
      reads this
    {
      step <= 2 && !(processing && complete)
    }

    constructor()
      ensures Valid()
      ensures State() == ReportsState(0, 10, None, false, false, false, 0, "", "", "", false, false, [])
    {
      page := 0;
      rowsPerPage := 10;
      selectedReport := None;
      detailsOpen := false;
      reimbursementOpen := false;
      approveOpen := false;
      step := 0;
      paymentMethod := "";
      bankAccount := "";
      paymentNote := "";
      processing := false;
      complete := false;
      pending := [];
    }

    /** The effect that sends the table back to its first page whenever the
        list of reports changes. */
    method ReportsChanged()
      modifies this
      ensures State() == old(State()).(page := 0)
    {
      page := 0;
    }

    /** `handleViewDetails`. */
    method ViewDetails(report: Report)
      modifies this
      ensures State() == old(State()).(selectedReport := Some(report), detailsOpen := true)
    {
      selectedReport := Some(report);
      detailsOpen := true;
    }

    /** `handleCloseDetails`: the selected report stays. */
    method CloseDetails()
      modifies this
      ensures State() == old(State()).(detailsOpen := false)
    {
      detailsOpen := false;
    }

    /** `handleChangePage`. */
    method ChangePage(newPage: nat)
      modifies this
      ensures State() == old(State()).(page := newPage)
    {
      page := newPage;
    }

    /** `handleChangeRowsPerPage`: a new page size starts again at page 0. */
    method ChangeRowsPerPage(rows: nat)
      modifies this
      ensures State() == old(State()).(rowsPerPage := rows, page := 0)
    {
      rowsPerPage := rows;
      page := 0;
    }

    /** `handleOpenReimbursement`: the dialog opens on the first step with an
        empty method, account and note, neither processing nor complete. */
    method OpenReimbursement(report: Report)
      modifies this
      ensures Valid()
      ensures State() == old(State()).(selectedReport := Some(report), reimbursementOpen := true, step := 0,
                                       paymentMethod := "", bankAccount := "", paymentNote := "",
                                       processing := false, complete := false)
    {
      selectedReport := Some(report);
      reimbursementOpen := true;
      step := 0;
      paymentMethod := "";
      bankAccount := "";
      paymentNote := "";
      processing := false;
      complete := false;
    }

    /** `handleCloseReimbursement`. */
    method CloseReimbursement()
      modifies this
      ensures State() == old(State()).(reimbursementOpen := false)
    {
      reimbursementOpen := false;
    }

    /** `handleNextReimbursementStep`: on the first two steps it moves on; on
        the last it starts processing the payment and sets a timer that keeps
        the selected report and the payment fields as they are now. */
    method Next()
      requires Valid()
      modifies this
      ensures Valid()
      ensures old(step) < 2 ==> State() == old(State()).(step := NextStep(old(step)))
      ensures old(step) == 2 ==>
        State() == old(State()).(processing := true, complete := false,
          pending := old(pending) + [PendingPayment(old(selectedReport), old(paymentMethod), old(bankAccount), old(paymentNote))])
    {
      if step < 2 {
        step := step + 1;
      } else {
        processing := true;
        complete := false;
        pending := pending + [PendingPayment(selectedReport, paymentMethod, bankAccount, paymentNote)];
      }
    }

    /** The oldest payment timer fires: the page shows the payment complete
        and, when a report was selected at the click, the store marks that
        report reimbursed with the method, account and note of the click,
        whatever the page holds now. `now` stands for the wall-clock timestamp. */
    method PaymentProcessed(store: Store, now: string)
      requires Valid() && pending != []
      modifies this, store
      ensures Valid()
      ensures State() == old(State()).(processing := false, complete := true, pending := old(pending)[1..])
      ensures var p := old(pending)[0];
        p.report.Some? ==>
          store.State() == old(store.State()).(reports := SetReportStatus(old(store.reports), p.report.value.id,
            "reimbursed", Some(Reimbursement(now, p.payMethod, p.account, p.note))))
      ensures old(pending)[0].report.None? ==> store.State() == old(store.State())
    {
      var p := pending[0];
      pending := pending[1..];
      processing := false;
      complete := true;
      if p.report.Some? {
        store.UpdateReportStatus(p.report.value.id, "reimbursed", Some(Reimbursement(now, p.payMethod, p.account, p.note)));
      }
    }

    /** `handleBackReimbursementStep`. */
    method Back()
      requires Valid()
      modifies this
      ensures Valid()
      ensures State() == old(State()).(step := BackStep(old(step)))
    {
      if step > 0 {
        step := step - 1;
      }
    }

    /** `handlePaymentMethodChange`: a method that needs no account clears it. */
    method PaymentMethodChange(m: string)
      requires Valid()
      modifies this
      ensures Valid()
      ensures State() == old(State()).(paymentMethod := m, bankAccount := if NeedsAccount(m) then old(bankAccount) else "")
    {
      paymentMethod := m;
      if m != "Direct Deposit" && m != "Wire Transfer" {
        bankAccount := "";
      }
    }

    /** `handleBankAccountChange`. */
    method BankAccountChange(account: string)
      requires Valid()
      modifies this
      ensures Valid()
      ensures State() == old(State()).(bankAccount := account)
    {
      bankAccount := account;
    }

    /** `handleOpenApprove`. */
    method OpenApprove(report: Report)
      modifies this
      ensures State() == old(State()).(selectedReport := Some(report), approveOpen := true)
    {
      selectedReport := Some(report);
      approveOpen := true;
    }

    /** `handleCloseApprove`: the selected report stays. */
    method CloseApprove()
      modifies this
      ensures State() == old(State()).(approveOpen := false)
    {
      approveOpen := false;
    }

    /** `handleApproveReport`: the selected report, if any, is marked
        approved by the finance manager; the dialog closes either way. */
    method ApproveReport(store: Store, now: string)
      modifies this, store
      ensures State() == old(State()).(approveOpen := false)
      ensures old(selectedReport).Some? ==>
        store.State() == old(store.State()).(reports := SetReportStatus(old(store.reports), old(selectedReport).value.id,
          "approved", Some(Approval(now, Approver))))
      ensures old(selectedReport).None? ==> store.State() == old(store.State())
    {
      if selectedReport.Some? {
        store.UpdateReportStatus(selectedReport.value.id, "approved", Some(Approval(now, Approver)));
      }
      approveOpen := false;
    }

    /** `handleRejectReport`: the selected report, if any, is marked
        rejected with the fixed reason; the dialog closes either way. */
    method RejectReport(store: Store, now: string)
      modifies this, store
      ensures State() == old(State()).(approveOpen := false)
      ensures old(selectedReport).Some? ==>
        store.State() == old(store.State()).(reports := SetReportStatus(old(store.reports), old(selectedReport).value.id,
          "rejected", Some(Rejection(now, Approver, "Rejected by manager"))))
      ensures old(selectedReport).None? ==> store.State() == old(store.State())
    {
      if selectedReport.Some? {
        store.UpdateReportStatus(selectedReport.value.id, "rejected", Some(Rejection(now, Approver, "Rejected by manager")));
      }
      approveOpen := false;
    }

    /** The note field. */
    method PaymentNoteChange(note: string)
      requires Valid()
      modifies this
      ensures Valid()
      ensures State() == old(State()).(paymentNote := note)
    {
      paymentNote := note;
    }
  }
}
