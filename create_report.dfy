/** The report composer: picking a card transaction for an expense item, the
    single-card rule, and submitting the composed report to the store.

    The composer keeps its own map from expense-item id to transaction id; an
    item counts as matched when its id maps to a non-empty transaction id (the
    JavaScript truthiness test on `matchedTransactions[item.id]`). */
module CreateReport {
  import opened Basics
  import opened Seqs
  import opened Text
  import opened Ledger
  import opened MatchScore
  import opened DataStore

  /** `matchedTransactions[item.id]` is truthy. */
  predicate IsMatched(item: ExpenseItem, matches: map<string, string>) {
    item.id in matches && matches[item.id] != ""
  }

  /** The item is matched and its transaction exists in the store. */
  predicate Linked(item: ExpenseItem, matches: map<string, string>, txs: seq<Transaction>) {
    IsMatched(item, matches) && FindTx(txs, matches[item.id]).Some?
  }

  function LinkedTx(item: ExpenseItem, matches: map<string, string>, txs: seq<Transaction>): (tx: Transaction)
    requires Linked(item, matches, txs)
    ensures tx.id == matches[item.id]
  {
    FindTx(txs, matches[item.id]).value
  }

  /** The transaction of the first linked item, in report order. */
  function FirstLinked(items: seq<ExpenseItem>, matches: map<string, string>, txs: seq<Transaction>): (r: Option<Transaction>)
    ensures r.None? <==> forall k :: 0 <= k < |items| ==> !Linked(items[k], matches, txs)
    ensures r.Some? ==> (exists k :: 0 <= k < |items| && Linked(items[k], matches, txs) &&
                                     LinkedTx(items[k], matches, txs) == r.value &&
                                     forall j :: 0 <= j < k ==> !Linked(items[j], matches, txs))
  {
    if items == [] then None
    else if Linked(items[0], matches, txs) then Some(LinkedTx(items[0], matches, txs))
    else
      var r := FirstLinked(items[1..], matches, txs);
      assert r.Some? ==> (exists k :: 1 <= k < |items| && Linked(items[k], matches, txs) &&
                                      LinkedTx(items[k], matches, txs) == r.value &&
                                      forall j :: 0 <= j < k ==> !Linked(items[j], matches, txs)) by {
        if r.Some? {
          var k :| 0 <= k < |items[1..]| && Linked(items[1..][k], matches, txs) &&
            LinkedTx(items[1..][k], matches, txs) == r.value &&
            forall j :: 0 <= j < k ==> !Linked(items[1..][j], matches, txs);
          assert items[k + 1] == items[1..][k];
        }
      }
      r
  }

  /** Two linked items sit on different cards. */
  predicate MixedCards(items: seq<ExpenseItem>, matches: map<string, string>, txs: seq<Transaction>) {
    exists i, j :: 0 <= i < |items| && 0 <= j < |items| &&
      Linked(items[i], matches, txs) && Linked(items[j], matches, txs) &&
      LinkedTx(items[i], matches, txs).cardNumber != LinkedTx(items[j], matches, txs).cardNumber
  }

  /** `transactions.filter(tx => tx.status === 'Unmatched')`. */
  function AvailableTransactions(txs: seq<Transaction>): (r: seq<Transaction>)
    ensures forall k :: 0 <= k < |r| ==> r[k] in txs && r[k].status == Unmatched
    ensures forall k :: 0 <= k < |txs| && txs[k].status == Unmatched ==> txs[k] in r
  {
    Filter(txs, (tx: Transaction) => tx.status == Unmatched)
  }

  // ---- choosing the best transaction ----

  /** The score of a transaction against an expense converted at the static rates. */
  function ScoreFor(tx: Transaction, expense: ExpenseItem): int {
    Score(tx, expense, ConvertToUSD(expense.total, expense.currency))
  }

  function Unclaimed(matches: map<string, string>): Transaction -> bool {
    (tx: Transaction) => tx.id !in matches.Values
  }

  const Threshold: int := 60

  /** The position of the first candidate reaching the highest positive score,
      if any candidate scores above zero: the choice made by a running maximum
      that starts at 0 and is replaced only by a strictly larger score. */
  predicate IsFirstBest<T>(cands: seq<T>, score: T -> int, k: int) {
    0 <= k < |cands| && score(cands[k]) > 0 &&
    (forall j :: 0 <= j < |cands| ==> score(cands[j]) <= score(cands[k])) &&
    (forall j :: 0 <= j < k ==> score(cands[j]) < score(cands[k]))
  }

  /** The running maximum over the candidates: the index it ends on (-1 when no
      candidate scores above zero) and the best score (0 then). */
  method RunningBest<T>(cands: seq<T>, score: T -> int) returns (bestIdx: int, bestScore: int)
    ensures bestIdx == -1 ==> bestScore == 0 && forall j :: 0 <= j < |cands| ==> score(cands[j]) <= 0
    ensures bestIdx != -1 ==> IsFirstBest(cands, score, bestIdx) && bestScore == score(cands[bestIdx])
  {
    bestScore := 0;
    bestIdx := -1;
    for i := 0 to |cands|
      invariant -1 <= bestIdx < i
      invariant bestIdx == -1 ==> bestScore == 0
      invariant bestIdx >= 0 ==> bestScore == score(cands[bestIdx]) > 0
      invariant forall j :: 0 <= j < i ==> score(cands[j]) <= bestScore
      invariant forall j :: 0 <= j < bestIdx ==> score(cands[j]) < bestScore
    {
      var s := score(cands[i]);
      if s > bestScore {
        bestScore := s;
        bestIdx := i;
      }
    }
  }

  /** `findBestMatchTransaction`: among the transactions no item has claimed,
      the first one reaching the highest score, if that score is at least 60. */
  method FindBestMatch(expense: Option<ExpenseItem>, txs: seq<Transaction>, matches: map<string, string>)
    returns (best: Option<string>)
    ensures expense.None? ==> best.None?
    ensures best.Some? ==> best.value !in matches.Values
    ensures expense.Some? && best.Some? ==>
      var cands := Filter(txs, Unclaimed(matches));
      exists k :: IsFirstBest(cands, (tx: Transaction) => ScoreFor(tx, expense.value), k) &&
        cands[k].id == best.value && ScoreFor(cands[k], expense.value) >= Threshold
    ensures expense.Some? && best.None? ==>
      var cands := Filter(txs, Unclaimed(matches));
      forall j :: 0 <= j < |cands| ==> ScoreFor(cands[j], expense.value) < Threshold
  {
    if expense.None? {
      return None;
    }
    var e := expense.value;
    var cands := Filter(txs, Unclaimed(matches));
    var score := (tx: Transaction) => ScoreFor(tx, e);
    var bestIdx, bestScore := RunningBest(cands, score);
    if bestScore >= Threshold {
      best := Some(cands[bestIdx].id);
    } else {
      best := None;
    }
  }

  // ---- the single-card rule ----

  /** The card of the first linked item in report order, the anchor of the
      candidate filter in the match dialog. */
  method AnchorCard(items: seq<ExpenseItem>, matches: map<string, string>, txs: seq<Transaction>)
    returns (anchor: Option<string>)
    ensures anchor.None? <==> FirstLinked(items, matches, txs).None?
    ensures anchor.Some? ==> anchor.value == FirstLinked(items, matches, txs).value.cardNumber
  {
    if |items| > 0 && |matches| > 0 {
      for i := 0 to |items|
        invariant forall j :: 0 <= j < i ==> !Linked(items[j], matches, txs)
      {
        if IsMatched(items[i], matches) {
          var existing := FindTx(txs, matches[items[i].id]);
          if existing.Some? {
            return Some(existing.value.cardNumber);
          }
        }
      }
    } else {
      assert forall j :: 0 <= j < |items| ==> !Linked(items[j], matches, txs);
    }
    return None;
  }

  function SameCard(anchor: Option<string>): Transaction -> bool {
    (tx: Transaction) => anchor.None? || tx.cardNumber == anchor.value
  }

  /** The transactions the match dialog offers: the available ones on the anchor's card. */
  function MatchCandidates(available: seq<Transaction>, anchor: Option<string>): (r: seq<Transaction>)
    ensures |r| <= |available|
    ensures anchor.Some? ==> forall k :: 0 <= k < |r| ==> r[k].cardNumber == anchor.value
    ensures forall k :: 0 <= k < |r| ==> r[k] in available
  {
    Filter(available, SameCard(anchor))
  }

  /** Without an anchor the filter keeps every transaction of the list it is given. */
  lemma NoAnchorOffersWholePool(available: seq<Transaction>)
    ensures MatchCandidates(available, None) == available
  {
    FilterAll(available, SameCard(None));
  }

  /** With an anchor, every available transaction on the anchor's card is offered. */
  lemma AnchorOffersItsCard(available: seq<Transaction>, card: string, tx: Transaction)
    requires tx in available && tx.cardNumber == card
    ensures tx in MatchCandidates(available, Some(card))
  {
    var k :| 0 <= k < |available| && available[k] == tx;
    assert SameCard(Some(card))(available[k]);
  }

  /** Opening the dialog again with the same anchor offers the same list. */
  lemma ReopenSameAnchor(available: seq<Transaction>, anchor: Option<string>)
    ensures MatchCandidates(MatchCandidates(available, anchor), anchor) == MatchCandidates(available, anchor)
  {
    FilterIdempotent(available, SameCard(anchor));
  }

  /** Once narrowed to a card, the list stays narrowed when the dialog is
      opened again without an anchor: only the transactions effect widens it. */
  lemma NarrowedPoolStays(available: seq<Transaction>, card: string)
    ensures MatchCandidates(MatchCandidates(available, Some(card)), None) == MatchCandidates(available, Some(card))
    ensures forall k :: 0 <= k < |MatchCandidates(MatchCandidates(available, Some(card)), None)| ==>
      MatchCandidates(MatchCandidates(available, Some(card)), None)[k].cardNumber == card
  {
    NoAnchorOffersWholePool(MatchCandidates(available, Some(card)));
  }

  /** The single-card rule applied to one item before it joins the report. */
  predicate CanAdd(item: ExpenseItem, items: seq<ExpenseItem>, matches: map<string, string>, txs: seq<Transaction>) {
    items == [] || !Linked(item, matches, txs) ||
    forall k :: 0 <= k < |items| && Linked(items[k], matches, txs) ==>
      LinkedTx(items[k], matches, txs).cardNumber == LinkedTx(item, matches, txs).cardNumber
  }

  /** `canAddToCurrentReport`. */
  method CanAddToCurrentReport(item: ExpenseItem, items: seq<ExpenseItem>, matches: map<string, string>, txs: seq<Transaction>)
    returns (ok: bool)
    ensures ok == CanAdd(item, items, matches, txs)
  {
    if |items| == 0 {
      return true;
    }
    if IsMatched(item, matches) {
      var itemTx := FindTx(txs, matches[item.id]);
      if itemTx.None? {
        return true;
      }
      for i := 0 to |items|
        invariant forall k :: 0 <= k < i && Linked(items[k], matches, txs) ==>
          LinkedTx(items[k], matches, txs).cardNumber == itemTx.value.cardNumber
      {
        if IsMatched(items[i], matches) {
          var existing := FindTx(txs, matches[items[i].id]);
          if existing.Some? && existing.value.cardNumber != itemTx.value.cardNumber {
            return false;
          }
        }
      }
    }
    return true;
  }

  /** An item the rule admits keeps a single-card report single-card. */
  lemma CanAddKeepsOneCard(item: ExpenseItem, items: seq<ExpenseItem>, matches: map<string, string>, txs: seq<Transaction>)
    requires !MixedCards(items, matches, txs)
    requires CanAdd(item, items, matches, txs)
    ensures !MixedCards(items + [item], matches, txs)
  {
    var all := items + [item];
    forall i, j | 0 <= i < |all| && 0 <= j < |all| && Linked(all[i], matches, txs) && Linked(all[j], matches, txs)
      ensures LinkedTx(all[i], matches, txs).cardNumber == LinkedTx(all[j], matches, txs).cardNumber
    {
      if i < |items| {
        assert all[i] == items[i];
      }
      if j < |items| {
        assert all[j] == items[j];
      }
    }
  }

  // ---- submitting ----

  /** The card number of some linked item. */
  predicate LinkedCard(items: seq<ExpenseItem>, matches: map<string, string>, txs: seq<Transaction>, n: int, c: string) {
    exists k :: 0 <= k < n && k < |items| && Linked(items[k], matches, txs) && LinkedTx(items[k], matches, txs).cardNumber == c
  }

  /** The `cardNumbers` and `accountNames` sets `handleSubmitReport` fills, in insertion order. */
  method CollectCards(items: seq<ExpenseItem>, matches: map<string, string>, txs: seq<Transaction>)
    returns (cardNumbers: seq<string>, accountNames: seq<string>)
    ensures NoDup(cardNumbers) && NoDup(accountNames)
    ensures forall c :: c in cardNumbers <==> LinkedCard(items, matches, txs, |items|, c)
    ensures (cardNumbers == [] <==> FirstLinked(items, matches, txs).None?) && (accountNames == [] <==> cardNumbers == [])
    ensures cardNumbers != [] ==>
      cardNumbers[0] == FirstLinked(items, matches, txs).value.cardNumber &&
      accountNames[0] == FirstLinked(items, matches, txs).value.accountName
  {
    cardNumbers := [];
    accountNames := [];
    for i := 0 to |items|
      invariant NoDup(cardNumbers) && NoDup(accountNames)
      invariant forall c :: c in cardNumbers <==> LinkedCard(items, matches, txs, i, c)
      invariant accountNames == [] <==> cardNumbers == []
      invariant cardNumbers != [] ==>
        FirstLinked(items, matches, txs).Some? &&
        cardNumbers[0] == FirstLinked(items, matches, txs).value.cardNumber &&
        accountNames[0] == FirstLinked(items, matches, txs).value.accountName
    {
      LinkedCardStep(items, matches, txs, i);
      if IsMatched(items[i], matches) {
        var tx := FindTx(txs, matches[items[i].id]);
        if tx.Some? {
          assert LinkedTx(items[i], matches, txs) == tx.value;
          if cardNumbers == [] {
            NoCardNoneLinked(items, matches, txs, i);
            FirstLinkedAt(items, matches, txs, i);
          }
          cardNumbers := SetAdd(cardNumbers, tx.value.cardNumber);
          accountNames := SetAdd(accountNames, tx.value.accountName);
        }
      }
    }
    NoCardNoneLinked(items, matches, txs, |items|);
  }

  /** No card has been collected from the first `n` items exactly when none of them is linked. */
  lemma NoCardNoneLinked(items: seq<ExpenseItem>, matches: map<string, string>, txs: seq<Transaction>, n: nat)
    requires n <= |items|
    ensures (forall c :: !LinkedCard(items, matches, txs, n, c)) <==> forall k :: 0 <= k < n ==> !Linked(items[k], matches, txs)
  {
    if exists k :: 0 <= k < n && Linked(items[k], matches, txs) {
      var k :| 0 <= k < n && Linked(items[k], matches, txs);
      assert LinkedCard(items, matches, txs, n, LinkedTx(items[k], matches, txs).cardNumber);
    }
  }

  /** One more item adds its card, when it is linked, to the cards seen so far. */
  lemma LinkedCardStep(items: seq<ExpenseItem>, matches: map<string, string>, txs: seq<Transaction>, i: nat)
    requires i < |items|
    ensures forall c :: LinkedCard(items, matches, txs, i + 1, c) <==>
      LinkedCard(items, matches, txs, i, c) || (Linked(items[i], matches, txs) && LinkedTx(items[i], matches, txs).cardNumber == c)
  {
    forall c | LinkedCard(items, matches, txs, i + 1, c) && !LinkedCard(items, matches, txs, i, c)
      ensures Linked(items[i], matches, txs) && LinkedTx(items[i], matches, txs).cardNumber == c
    {
      var k :| 0 <= k < i + 1 && k < |items| && Linked(items[k], matches, txs) && LinkedTx(items[k], matches, txs).cardNumber == c;
      assert k == i;
    }
  }

  /** The collected set holds two cards exactly when two linked items sit on different cards. */
  lemma MoreThanOneCardIff(items: seq<ExpenseItem>, matches: map<string, string>, txs: seq<Transaction>, cardNumbers: seq<string>)
    requires NoDup(cardNumbers)
    requires forall c :: c in cardNumbers <==> LinkedCard(items, matches, txs, |items|, c)
    ensures |cardNumbers| > 1 <==> MixedCards(items, matches, txs)
  {
    if |cardNumbers| > 1 {
      assert LinkedCard(items, matches, txs, |items|, cardNumbers[0]);
      assert LinkedCard(items, matches, txs, |items|, cardNumbers[1]);
    }
    if MixedCards(items, matches, txs) {
      var i, j :| 0 <= i < |items| && 0 <= j < |items| &&
        Linked(items[i], matches, txs) && Linked(items[j], matches, txs) &&
        LinkedTx(items[i], matches, txs).cardNumber != LinkedTx(items[j], matches, txs).cardNumber;
      assert LinkedCard(items, matches, txs, |items|, LinkedTx(items[i], matches, txs).cardNumber);
      assert LinkedCard(items, matches, txs, |items|, LinkedTx(items[j], matches, txs).cardNumber);
    }
  }

  /** The first linked item is the one after which no earlier item is linked. */
  lemma FirstLinkedAt(items: seq<ExpenseItem>, matches: map<string, string>, txs: seq<Transaction>, i: nat)
    requires i < |items| && Linked(items[i], matches, txs)
    requires forall k :: 0 <= k < i ==> !Linked(items[k], matches, txs)
    ensures FirstLinked(items, matches, txs) == Some(LinkedTx(items[i], matches, txs))
  {
    var r := FirstLinked(items, matches, txs);
    var k :| 0 <= k < |items| && Linked(items[k], matches, txs) && LinkedTx(items[k], matches, txs) == r.value &&
      forall j :: 0 <= j < k ==> !Linked(items[j], matches, txs);
    assert k == i;
  }

  /** One submitted line: the item, its USD amount and the card of its matched transaction. */
  function ReportLineOf(item: ExpenseItem, matches: map<string, string>, txs: seq<Transaction>): (line: ReportLine)
    ensures line.item == item && line.amountUSD == ConvertToUSD(item.total, item.currency)
    ensures line.matchedTransactionId.Some? <==> IsMatched(item, matches)
    ensures line.cardNumber.Some? <==> Linked(item, matches, txs)
    ensures line.cardNumber.Some? ==>
      (line.cardNumber.value == LinkedTx(item, matches, txs).cardNumber &&
       line.accountName == Some(LinkedTx(item, matches, txs).accountName))
  {
    var txId := if IsMatched(item, matches) then Some(matches[item.id]) else None;
    var tx := if txId.Some? then FindTx(txs, txId.value) else None;
    ReportLine(item, ConvertToUSD(item.total, item.currency), txId,
      if tx.Some? then Some(tx.value.cardNumber) else None,
      if tx.Some? then Some(tx.value.accountName) else None)
  }

  function ReportLines(items: seq<ExpenseItem>, matches: map<string, string>, txs: seq<Transaction>): (lines: seq<ReportLine>)
    ensures |lines| == |items|
    ensures forall k :: 0 <= k < |items| ==> lines[k] == ReportLineOf(items[k], matches, txs)
  {
    seq(|items|, k requires 0 <= k < |items| => ReportLineOf(items[k], matches, txs))
  }

  /** The report total: the USD amounts of all items. */
  function TotalUSD(items: seq<ExpenseItem>): int {
    if items == [] then 0 else ConvertToUSD(items[0].total, items[0].currency) + TotalUSD(items[1..])
  }

  /** The sum of the line amounts is the report total. */
  lemma {:induction false} TotalIsSumOfLines(items: seq<ExpenseItem>, matches: map<string, string>, txs: seq<Transaction>)
    ensures TotalUSD(items) == Sum(seq(|items|, k requires 0 <= k < |items| => ReportLines(items, matches, txs)[k].amountUSD))
  {
    if items != [] {
      TotalIsSumOfLines(items[1..], matches, txs);
      var whole := seq(|items|, k requires 0 <= k < |items| => ReportLines(items, matches, txs)[k].amountUSD);
      var rest := seq(|items| - 1, k requires 0 <= k < |items| - 1 => ReportLines(items[1..], matches, txs)[k].amountUSD);
      assert whole[1..] == rest;
    }
  }

  const BlankTitleError := "Please enter a report title"
  const NoItemsError := "Your report needs at least one expense item"
  const NoCostCodeError := "Please select a cost code"
  const MultipleCardsError := "This report contains expenses from multiple cards. Please create separate reports for each card."

  /** The report `handleSubmitReport` builds, or the message it refuses with.
      The id stands for the clock-derived `REP-…` id. */
  function ComposeReport(id: string, title: string, description: string, costCode: string,
                         items: seq<ExpenseItem>, matches: map<string, string>, txs: seq<Transaction>): (r: Result<Report>)
    ensures r.Err? <==> Trim(title) == [] || items == [] || costCode == [] || MixedCards(items, matches, txs)
    ensures r.Err? && Trim(title) == [] ==> r.message == BlankTitleError
    ensures r.Ok? ==>
      (r.value.id == id && r.value.title == title && r.value.description == description &&
       r.value.costCode == costCode && r.value.status == "submitted" && r.value.approvalDetails.None? &&
       r.value.items == ReportLines(items, matches, txs) && r.value.totalAmount == TotalUSD(items))
    ensures r.Ok? ==> (r.value.cardInfo.Some? <==> exists k :: 0 <= k < |items| && Linked(items[k], matches, txs))
    ensures r.Ok? && r.value.cardInfo.Some? ==> forall k :: 0 <= k < |items| && Linked(items[k], matches, txs) ==>
      LinkedTx(items[k], matches, txs).cardNumber == r.value.cardInfo.value.cardNumber
    ensures r.Ok? && r.value.cardInfo.Some? ==>
      (FirstLinked(items, matches, txs).Some? &&
       r.value.cardInfo.value ==
         CardInfo(FirstLinked(items, matches, txs).value.cardNumber, FirstLinked(items, matches, txs).value.accountName))
  {
    if Trim(title) == [] then Err(BlankTitleError)
    else if items == [] then Err(NoItemsError)
    else if costCode == [] then Err(NoCostCodeError)
    else if MixedCards(items, matches, txs) then Err(MultipleCardsError)
    else
      var first := FirstLinked(items, matches, txs);
      var cardInfo := if first.Some? then Some(CardInfo(first.value.cardNumber, first.value.accountName)) else None;
      assert cardInfo.Some? ==> forall k :: 0 <= k < |items| && Linked(items[k], matches, txs) ==>
        LinkedTx(items[k], matches, txs).cardNumber == cardInfo.value.cardNumber by {
        if cardInfo.Some? {
          var k0 :| 0 <= k0 < |items| && Linked(items[k0], matches, txs) && LinkedTx(items[k0], matches, txs) == first.value &&
            forall j :: 0 <= j < k0 ==> !Linked(items[j], matches, txs);
          forall k | 0 <= k < |items| && Linked(items[k], matches, txs)
            ensures LinkedTx(items[k], matches, txs).cardNumber == cardInfo.value.cardNumber
          {
            assert !(Linked(items[k], matches, txs) && Linked(items[k0], matches, txs) &&
                     LinkedTx(items[k], matches, txs).cardNumber != LinkedTx(items[k0], matches, txs).cardNumber);
          }
        }
      }
      Ok(Report(id, title, description, costCode, cardInfo, ReportLines(items, matches, txs),
                TotalUSD(items), "submitted", None))
  }

  /** The checks and the report assembly of `handleSubmitReport`, in the
      source's order, with the card sets filled by a loop. */
  method BuildReport(id: string, title: string, description: string, costCode: string,
                     items: seq<ExpenseItem>, matches: map<string, string>, txs: seq<Transaction>)
    returns (r: Result<Report>)
    ensures r == ComposeReport(id, title, description, costCode, items, matches, txs)
  {
    if Trim(title) == [] {
      return Err(BlankTitleError);
    }
    if |items| == 0 {
      return Err(NoItemsError);
    }
    if costCode == [] {
      return Err(NoCostCodeError);
    }
    var cardNumbers, accountNames := CollectCards(items, matches, txs);
    MoreThanOneCardIff(items, matches, txs, cardNumbers);
    if |cardNumbers| > 1 {
      return Err(MultipleCardsError);
    }
    var cardInfo: Option<CardInfo> := None;
    if |cardNumbers| == 1 {
      cardInfo := Some(CardInfo(cardNumbers[0], accountNames[0]));
    }
    r := Ok(Report(id, title, description, costCode, cardInfo, ReportLines(items, matches, txs),
                   TotalUSD(items), "submitted", None));
  }

  /** The composer page's state over the shared store. */
  class ReportComposer {
    var store: Store
    var title: string
    var description: string
    var costCode: string
    var selectedItems: seq<string>
    var matches: map<string, string>
    /** The transactions the match dialog draws from: the store's unmatched
        ones after each change of the store's transactions, narrowed to one
        card by every opening of the dialog with an anchor. */
    var available: seq<Transaction>
    var dialogOpen: bool
    var selectedExpense: Option<ExpenseItem>
    var error: Option<string>

    /** The first render: every field holds its initial value. The effects
        that run after it are `TransactionsChanged` and `ItemsChanged`. */
    constructor (store: Store)
      ensures this.store == store && title == [] && description == [] && costCode == []
      ensures selectedItems == [] && matches == map[] && available == [] && !dialogOpen
      ensures selectedExpense.None? && error.None?
    {
      this.store := store;
      title := [];
      description := [];
      costCode := [];
      selectedItems := [];
      matches := map[];
      available := [];
      dialogOpen := false;
      selectedExpense := None;
      error := None;
    }

    /** The effect that refills the dialog's list with the store's unmatched
        transactions whenever the store's transactions change. */
    method TransactionsChanged()
      modifies this
      ensures available == AvailableTransactions(store.transactions)
      ensures store == old(store) && title == old(title) && description == old(description) &&
        costCode == old(costCode) && selectedItems == old(selectedItems) && matches == old(matches) &&
        dialogOpen == old(dialogOpen) && selectedExpense == old(selectedExpense) && error == old(error)
    {
      available := AvailableTransactions(store.transactions);
    }

    /** The effect that rebuilds the matches from the queued items whenever
        they change. Queued items never carry a match id, so every match
        is dropped. */
    method ItemsChanged()
      modifies this
      ensures matches == map[]
      ensures store == old(store) && title == old(title) && description == old(description) &&
        costCode == old(costCode) && selectedItems == old(selectedItems) && available == old(available) &&
        dialogOpen == old(dialogOpen) && selectedExpense == old(selectedExpense) && error == old(error)
    {
      matches := map[];
    }

    /** `handleOpenMatchDialog`: the expense is selected, the dialog opens on
        the current list narrowed to the first linked item's card, that
        narrowed list replaces the current one, and the best unclaimed
        candidate is suggested. */
    method OpenMatchDialog(expense: ExpenseItem) returns (candidates: seq<Transaction>, suggestion: Option<string>)
      modifies this
      ensures FirstLinked(store.reportItems, matches, store.transactions).None? ==> candidates == old(available)
      ensures FirstLinked(store.reportItems, matches, store.transactions).Some? ==>
        candidates == MatchCandidates(old(available), Some(FirstLinked(store.reportItems, matches, store.transactions).value.cardNumber))
      ensures available == candidates && selectedExpense == Some(expense) && dialogOpen
      ensures suggestion.Some? ==> suggestion.value !in matches.Values
      ensures suggestion.Some? ==>
        exists k :: 0 <= k < |candidates| && candidates[k].id == suggestion.value && ScoreFor(candidates[k], expense) >= Threshold
      ensures store == old(store) && title == old(title) && description == old(description) &&
        costCode == old(costCode) && selectedItems == old(selectedItems) && matches == old(matches) && error == old(error)
    {
      var items, txs, pool, claimed := store.reportItems, store.transactions, available, matches;
      var anchor := AnchorCard(items, claimed, txs);
      candidates := MatchCandidates(pool, anchor);
      if anchor.None? {
        NoAnchorOffersWholePool(pool);
      }
      suggestion := FindBestMatch(Some(expense), candidates, claimed);
      if suggestion.Some? {
        var cands := Filter(candidates, Unclaimed(claimed));
        var k :| 0 <= k < |cands| && cands[k].id == suggestion.value && ScoreFor(cands[k], expense) >= Threshold;
        var m :| 0 <= m < |candidates| && candidates[m] == cands[k];
      }
      selectedExpense := Some(expense);
      available := candidates;
      dialogOpen := true;
    }

    /** `handleCloseMatchDialog`: the dialog closes and the expense is
        deselected; the narrowed list stays. */
    method CloseMatchDialog()
      modifies this
      ensures !dialogOpen && selectedExpense.None?
      ensures store == old(store) && title == old(title) && description == old(description) &&
        costCode == old(costCode) && selectedItems == old(selectedItems) && matches == old(matches) &&
        available == old(available) && error == old(error)
    {
      dialogOpen := false;
      selectedExpense := None;
    }

    /** `handleMatchTransaction`; the receipt id stands for the clock-derived `R-…` id.
        Nothing checks whether another item already claims the transaction. */
    method MatchTransaction(txId: string, receiptId: string)
      modifies this, store
      ensures store == old(store)
      ensures old(selectedExpense).None? ==>
        matches == old(matches) && selectedExpense == old(selectedExpense) && dialogOpen == old(dialogOpen) &&
        store.State() == old(store.State())
      ensures old(selectedExpense).Some? ==>
        matches == old(matches)[old(selectedExpense).value.id := txId] && selectedExpense.None? && !dialogOpen &&
        store.State() == MatchWithReceipt(old(store.State()), txId, receiptId)
      ensures title == old(title) && description == old(description) && costCode == old(costCode) &&
        selectedItems == old(selectedItems) && available == old(available) && error == old(error)
    {
      if selectedExpense.None? {
        return;
      }
      matches := matches[selectedExpense.value.id := txId];
      store.MatchTransactionWithReceipt(txId, receiptId);
      dialogOpen := false;
      selectedExpense := None;
    }

    /** `handleUnmatchTransaction`: the entry goes and the store undoes the link. */
    method UnmatchTransaction(expenseId: string)
      modifies this, store
      ensures store == old(store)
      ensures matches == old(matches) - {expenseId} && expenseId !in matches
      ensures expenseId in old(matches) && old(matches)[expenseId] != "" ==>
        store.State() == Unmatch(old(store.State()), old(matches)[expenseId])
      ensures !(expenseId in old(matches) && old(matches)[expenseId] != "") ==> store.State() == old(store.State())
      ensures title == old(title) && description == old(description) && costCode == old(costCode) &&
        selectedItems == old(selectedItems) && available == old(available) && dialogOpen == old(dialogOpen) &&
        selectedExpense == old(selectedExpense) && error == old(error)
    {
      var txId := if expenseId in matches then matches[expenseId] else "";
      matches := matches - {expenseId};
      if txId != "" {
        store.UnmatchTransaction(txId);
      }
    }

    /** `handleSubmitReport`: a refused report changes nothing but the error; an
        accepted one goes to the store and the form is reset. */
    method SubmitReport(id: string) returns (r: Result<Report>)
      modifies this, store
      ensures store == old(store)
      ensures r == ComposeReport(id, old(title), old(description), old(costCode), old(store.reportItems), old(matches), old(store.transactions))
      ensures r.Err? ==>
        (error == Some(r.message) && store.State() == old(store.State()) &&
         title == old(title) && description == old(description) && costCode == old(costCode) &&
         matches == old(matches) && selectedItems == old(selectedItems))
      ensures r.Ok? ==>
        (error.None? && store.State() == old(store.State()).(reports := [r.value] + old(store.reports), reportItems := []) &&
         title == [] && description == [] && costCode == [] && matches == map[] && selectedItems == [])
      ensures selectedExpense == old(selectedExpense) && available == old(available) && dialogOpen == old(dialogOpen)
    {
      var items, txs := store.reportItems, store.transactions;
      r := BuildReport(id, title, description, costCode, items, matches, txs);
      if r.Err? {
        error := Some(r.message);
        return;
      }
      store.AddReport(r.value);
      ResetForm();
    }

    /** The form after an accepted report: empty, with no error. */
    method ResetForm()
      modifies this
      ensures error.None? && title == [] && description == [] && costCode == [] && matches == map[] && selectedItems == []
      ensures store == old(store) && selectedExpense == old(selectedExpense) && available == old(available) &&
        dialogOpen == old(dialogOpen)
    {
      error := None;
      title := [];
      description := [];
      selectedItems := [];
      costCode := [];
      matches := map[];
    }
  }
}
