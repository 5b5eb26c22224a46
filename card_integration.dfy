/** The corporate-card page: its own copy of the card transactions and of the
    receipt pool, the greedy auto-matcher, manual match and unlink, and the
    filtered, sorted view with per-card statistics. */
module CardIntegration {
  import opened Basics
  import opened Seqs
  import opened Text
  import opened Ledger
  import opened DataStore

  /** The auto-matcher's test: the same amount, and the lower-cased receipt vendor
      contains the lower-cased merchant name (one direction only). */
  predicate Pairs(r: Receipt, tx: Transaction) {
    r.amount == tx.amount && Contains(Lower(r.vendor), Lower(tx.merchantName))
  }

  /** `receipts.findIndex(...)`, with `None` for -1. */
  function FindPairIndex(receipts: seq<Receipt>, tx: Transaction): (r: Option<nat>)
    ensures r.None? <==> forall k :: 0 <= k < |receipts| ==> !Pairs(receipts[k], tx)
    ensures r.Some? ==>
      (r.value < |receipts| && Pairs(receipts[r.value], tx) &&
       forall k :: 0 <= k < r.value ==> !Pairs(receipts[k], tx))
  {
    if receipts == [] then None
    else if Pairs(receipts[0], tx) then Some(0)
    else match FindPairIndex(receipts[1..], tx)
      case None => None
      case Some(i) => Some(i + 1)
  }

  /** The transaction after it is paired with a receipt. */
  function LinkTo(tx: Transaction, r: Receipt): Transaction {
    tx.(status := Matched, receiptStatus := Some("Verified"), receiptId := Some(r.id))
  }

  /** The receipt pool without its element at `i`, and the element, make up the pool. */
  lemma RemoveAtMultiset<T>(s: seq<T>, i: nat)
    requires i < |s|
    ensures multiset(RemoveAt(s, i)) + multiset{s[i]} == multiset(s)
  {
    assert s == s[..i] + [s[i]] + s[i + 1..];
  }

  /** The number of positions where an unmatched transaction became matched. */
  function Flipped(before: seq<Transaction>, after: seq<Transaction>): nat
    requires |before| == |after|
  {
    if before == [] then 0
    else
      var here := if before[0].status == Unmatched && after[0].status == Matched then 1 else 0;
      here + Flipped(before[1..], after[1..])
  }

  datatype AutoMatchResult = AutoMatchResult(transactions: seq<Transaction>, receipts: seq<Receipt>, used: seq<Receipt>)

  /** The outcome of `handleAutoMatch` on the transactions from left to right:
      the new transactions, the receipts left in the pool, and the receipts used,
      in the order they were used. */
  function AutoMatchFrom(txs: seq<Transaction>, receipts: seq<Receipt>): (res: AutoMatchResult)
    ensures |res.transactions| == |txs|
    ensures |res.receipts| + |res.used| == |receipts|
    decreases |txs|
  {
    if txs == [] then AutoMatchResult([], receipts, [])
    else
      var tx := txs[0];
      var j := if tx.status == Unmatched then FindPairIndex(receipts, tx) else None;
      if j.Some? then
        var rest := AutoMatchFrom(txs[1..], RemoveAt(receipts, j.value));
        AutoMatchResult([LinkTo(tx, receipts[j.value])] + rest.transactions, rest.receipts, [receipts[j.value]] + rest.used)
      else
        var rest := AutoMatchFrom(txs[1..], receipts);
        AutoMatchResult([tx] + rest.transactions, rest.receipts, rest.used)
  }

  /** One step of the auto-matcher, at position `i`. */
  lemma AutoMatchStep(txs: seq<Transaction>, pool: seq<Receipt>, i: nat)
    requires i < |txs|
    ensures var tx := txs[i];
      var j := if tx.status == Unmatched then FindPairIndex(pool, tx) else None;
      var rest := AutoMatchFrom(txs[i + 1..], if j.Some? then RemoveAt(pool, j.value) else pool);
      AutoMatchFrom(txs[i..], pool) ==
        if j.Some? then AutoMatchResult([LinkTo(tx, pool[j.value])] + rest.transactions, rest.receipts, [pool[j.value]] + rest.used)
        else AutoMatchResult([tx] + rest.transactions, rest.receipts, rest.used)
  {
    assert txs[i..][0] == txs[i] && txs[i..][1..] == txs[i + 1..];
  }

  /** The receipts left and the receipts used make up the original pool: no
      receipt is used twice and none is lost. */
  lemma {:induction false} AutoMatchKeepsReceipts(txs: seq<Transaction>, receipts: seq<Receipt>)
    ensures multiset(AutoMatchFrom(txs, receipts).receipts) + multiset(AutoMatchFrom(txs, receipts).used) == multiset(receipts)
    decreases |txs|
  {
    if txs != [] {
      var tx := txs[0];
      var j := if tx.status == Unmatched then FindPairIndex(receipts, tx) else None;
      if j.Some? {
        AutoMatchKeepsReceipts(txs[1..], RemoveAt(receipts, j.value));
        RemoveAtMultiset(receipts, j.value);
      } else {
        AutoMatchKeepsReceipts(txs[1..], receipts);
      }
    }
  }

  /** `matchCount`, the number of receipts used, is the number of transactions
      that went from Unmatched to Matched. */
  lemma {:induction false} AutoMatchCountsFlips(txs: seq<Transaction>, receipts: seq<Receipt>)
    ensures |AutoMatchFrom(txs, receipts).used| == Flipped(txs, AutoMatchFrom(txs, receipts).transactions)
    decreases |txs|
  {
    if txs != [] {
      var res := AutoMatchFrom(txs, receipts);
      var tx := txs[0];
      var j := if tx.status == Unmatched then FindPairIndex(receipts, tx) else None;
      if j.Some? {
        var rest := AutoMatchFrom(txs[1..], RemoveAt(receipts, j.value));
        AutoMatchCountsFlips(txs[1..], RemoveAt(receipts, j.value));
        assert res.transactions[1..] == rest.transactions;
      } else {
        var rest := AutoMatchFrom(txs[1..], receipts);
        AutoMatchCountsFlips(txs[1..], receipts);
        assert res.transactions[1..] == rest.transactions;
      }
    }
  }

  /** Only unmatched transactions are rewritten, each one linked to a receipt it
      pairs with and that was used; matched ones, the length and the order stay. */
  lemma {:induction false} AutoMatchOnlyRewritesUnmatched(txs: seq<Transaction>, receipts: seq<Receipt>, k: nat)
    requires k < |txs|
    ensures var res := AutoMatchFrom(txs, receipts);
      res.transactions[k] == txs[k] ||
      (txs[k].status == Unmatched &&
       exists u :: u in res.used && Pairs(u, txs[k]) && res.transactions[k] == LinkTo(txs[k], u))
    decreases |txs|
  {
    var res := AutoMatchFrom(txs, receipts);
    var tx := txs[0];
    var j := if tx.status == Unmatched then FindPairIndex(receipts, tx) else None;
    if k > 0 {
      var pool := if j.Some? then RemoveAt(receipts, j.value) else receipts;
      var rest := AutoMatchFrom(txs[1..], pool);
      AutoMatchOnlyRewritesUnmatched(txs[1..], pool, k - 1);
      assert res.transactions[k] == rest.transactions[k - 1] && txs[k] == txs[1..][k - 1];
      assert forall u :: u in rest.used ==> u in res.used;
    } else if j.Some? {
      assert receipts[j.value] in res.used;
    }
  }

  /** A matched transaction is never touched. */
  lemma AutoMatchKeepsMatched(txs: seq<Transaction>, receipts: seq<Receipt>, k: nat)
    requires k < |txs| && txs[k].status == Matched
    ensures AutoMatchFrom(txs, receipts).transactions[k] == txs[k]
  {
    AutoMatchOnlyRewritesUnmatched(txs, receipts, k);
  }

  /** Each receipt is used at most once: the receipts used are drawn from the pool
      without replacement, so no receipt occurs more often in `used` than in the pool. */
  lemma AutoMatchUsesEachReceiptOnce(txs: seq<Transaction>, receipts: seq<Receipt>, r: Receipt)
    ensures multiset(AutoMatchFrom(txs, receipts).used)[r] <= multiset(receipts)[r]
  {
    AutoMatchKeepsReceipts(txs, receipts);
    var res := AutoMatchFrom(txs, receipts);
    assert multiset(res.receipts)[r] + multiset(res.used)[r] == multiset(receipts)[r];
  }

  /** With no receipt left in the pool the auto-matcher changes no transaction. */
  lemma {:induction false} AutoMatchEmptyPool(txs: seq<Transaction>)
    ensures AutoMatchFrom(txs, []).transactions == txs
  {
    if txs != [] {
      AutoMatchEmptyPool(txs[1..]);
    }
  }

  /** The receipts `handleUnlink` appends: one rebuilt receipt for each transaction
      with the id that has a receipt id, in list order. */
  function UnlinkedReceipts(txs: seq<Transaction>, id: string): (rs: seq<Receipt>)
    ensures |rs| <= |txs|
    ensures forall k :: 0 <= k < |rs| ==> rs[k].status == "Unmatched"
  {
    if txs == [] then []
    else
      var here := if txs[0].id == id && HasReceipt(txs[0]) then [ReceiptOf(txs[0])] else [];
      here + UnlinkedReceipts(txs[1..], id)
  }

  /** With a single transaction carrying the id, unlinking rebuilds at most its receipt. */
  lemma {:induction false} UnlinkedReceiptsOfUnique(txs: seq<Transaction>, id: string, p: nat)
    requires p < |txs| && txs[p].id == id
    requires forall k :: 0 <= k < |txs| && k != p ==> txs[k].id != id
    ensures UnlinkedReceipts(txs, id) == if HasReceipt(txs[p]) then [ReceiptOf(txs[p])] else []
    decreases |txs|
  {
    if p == 0 {
      NoUnlinkedReceipts(txs[1..], id);
    } else {
      UnlinkedReceiptsOfUnique(txs[1..], id, p - 1);
    }
  }

  lemma {:induction false} NoUnlinkedReceipts(txs: seq<Transaction>, id: string)
    requires forall k :: 0 <= k < |txs| ==> txs[k].id != id
    ensures UnlinkedReceipts(txs, id) == []
  {
    if txs != [] {
      NoUnlinkedReceipts(txs[1..], id);
    }
  }

  // ---- the filtered and sorted view ----

  predicate MatchesSearch(tx: Transaction, term: string) {
    var t := Lower(term);
    Contains(Lower(tx.merchantName), t) || Contains(Lower(tx.id), t) || Contains(Lower(tx.accountName), t) ||
    (HasReceipt(tx) && Contains(Lower(tx.receiptId.value), t))
  }

  predicate MatchesStatus(tx: Transaction, statusFilter: string) {
    statusFilter == "all" ||
    (statusFilter == "matched" && tx.status == Matched) ||
    (statusFilter == "unmatched" && tx.status == Unmatched)
  }

  predicate MatchesCard(tx: Transaction, cardFilter: string) {
    cardFilter == "all" || tx.cardNumber == cardFilter
  }

  function Shown(term: string, statusFilter: string, cardFilter: string): Transaction -> bool {
    (tx: Transaction) => MatchesSearch(tx, term) && MatchesStatus(tx, statusFilter) && MatchesCard(tx, cardFilter)
  }

  /** `filteredTransactions`: a transaction is shown exactly when the search, the
      status filter and the card filter all accept it. */
  function FilteredTransactions(txs: seq<Transaction>, term: string, statusFilter: string, cardFilter: string)
    : (r: seq<Transaction>)
    ensures forall k :: 0 <= k < |r| ==>
      (r[k] in txs && MatchesSearch(r[k], term) && MatchesStatus(r[k], statusFilter) && MatchesCard(r[k], cardFilter))
    ensures forall k :: (0 <= k < |txs| && MatchesSearch(txs[k], term) &&
                         MatchesStatus(txs[k], statusFilter) && MatchesCard(txs[k], cardFilter)) ==> txs[k] in r
  {
    Filter(txs, Shown(term, statusFilter, cardFilter))
  }

  /** With an empty search and both filters on 'all', every transaction is shown, in order. */
  lemma NoFilterShowsAll(txs: seq<Transaction>)
    ensures FilteredTransactions(txs, "", "all", "all") == txs
  {
    forall k | 0 <= k < |txs|
      ensures Shown("", "all", "all")(txs[k])
    {
      assert IsPrefix("", Lower(txs[k].merchantName)[0..]);
    }
    FilterAll(txs, Shown("", "all", "all"));
  }

  datatype SortOrder = Desc | Asc

  /** `handleToggleSort`. */
  function Toggled(order: SortOrder): (r: SortOrder)
    ensures r != order
  {
    if order == Desc then Asc else Desc
  }

  lemma ToggleTwice(order: SortOrder)
    ensures Toggled(Toggled(order)) == order
  {
  }

  /** `a` may come before `b` in the chosen order. */
  predicate InOrder(a: Transaction, b: Transaction, order: SortOrder) {
    if order == Desc then a.date >= b.date else a.date <= b.date
  }

  predicate SortedBy(s: seq<Transaction>, order: SortOrder) {
    forall i, j :: 0 <= i < j < |s| ==> InOrder(s[i], s[j], order)
  }

  /** `x` inserted in front of the first element it may precede. */
  function Insert(x: Transaction, s: seq<Transaction>, order: SortOrder): (r: seq<Transaction>)
    requires SortedBy(s, order)
    ensures multiset(r) == multiset(s) + multiset{x}
    ensures SortedBy(r, order)
  {
    if s == [] || InOrder(x, s[0], order) then [x] + s
    else
      var rest := Insert(x, s[1..], order);
      LeadsAll(s[0], x, s[1..], rest, order);
      assert s == [s[0]] + s[1..];
      [s[0]] + rest
  }

  /** An element that may precede `x` and every element of `s` may precede
      every element of any rearrangement of `s` with `x` added. */
  lemma LeadsAll(y: Transaction, x: Transaction, s: seq<Transaction>, r: seq<Transaction>, order: SortOrder)
    requires InOrder(y, x, order) && forall k :: 0 <= k < |s| ==> InOrder(y, s[k], order)
    requires multiset(r) == multiset(s) + multiset{x}
    ensures forall k :: 0 <= k < |r| ==> InOrder(y, r[k], order)
  {
    forall k | 0 <= k < |r|
      ensures InOrder(y, r[k], order)
    {
      assert r[k] in multiset(s) + multiset{x};
      if r[k] != x {
        assert r[k] in s;
      }
    }
  }

  /** `sortedTransactions`: the filtered list ordered by date. */
  function SortByDate(s: seq<Transaction>, order: SortOrder): (r: seq<Transaction>)
    ensures multiset(r) == multiset(s) && |r| == |s|
    ensures SortedBy(r, order)
  {
    if s == [] then []
    else
      assert s == [s[0]] + s[1..];
      Insert(s[0], SortByDate(s[1..], order), order)
  }

  function OnDate(d: int): Transaction -> bool {
    (tx: Transaction) => tx.date == d
  }

  /** Inserting `x` puts it ahead of every element of its own date. */
  lemma {:induction false} InsertSameDate(x: Transaction, s: seq<Transaction>, order: SortOrder, d: int)
    requires SortedBy(s, order)
    ensures Filter(Insert(x, s, order), OnDate(d)) == (if x.date == d then [x] else []) + Filter(s, OnDate(d))
  {
    if s == [] || InOrder(x, s[0], order) {
      FilterCons(x, s, OnDate(d));
    } else {
      var rest := Insert(x, s[1..], order);
      InsertSameDate(x, s[1..], order, d);
      FilterCons(s[0], rest, OnDate(d));
      FilterCons(s[0], s[1..], OnDate(d));
      assert s == [s[0]] + s[1..];
      assert x.date != s[0].date;
    }
  }

  /** The sort is stable: the transactions of any one date keep the order
      they had in the filtered list, as `Array.prototype.sort` guarantees. */
  lemma {:induction false} SortByDateStable(s: seq<Transaction>, order: SortOrder, d: int)
    ensures Filter(SortByDate(s, order), OnDate(d)) == Filter(s, OnDate(d))
  {
    if s != [] {
      SortByDateStable(s[1..], order, d);
      InsertSameDate(s[0], SortByDate(s[1..], order), order, d);
    }
  }

  datatype CardStats = CardStats(total: int, count: nat, matched: nat, unmatched: nat)

  function OnCard(cardNumber: string): Transaction -> bool {
    (tx: Transaction) => cardNumber == "all" || tx.cardNumber == cardNumber
  }

  function IsMatchedTx(): Transaction -> bool {
    (tx: Transaction) => tx.status == Matched
  }

  function IsUnmatchedTx(): Transaction -> bool {
    (tx: Transaction) => tx.status == Unmatched
  }

  function TotalAmount(txs: seq<Transaction>): int {
    if txs == [] then 0 else txs[0].amount + TotalAmount(txs[1..])
  }

  /** Each transaction is matched or unmatched, never both. */
  lemma {:induction false} StatusPartition(txs: seq<Transaction>)
    ensures Count(txs, IsMatchedTx()) + Count(txs, IsUnmatchedTx()) == |txs|
  {
    if txs != [] {
      StatusPartition(txs[1..]);
    }
  }

  /** The transactions of the card with the given status. */
  function OnCardWith(cardNumber: string, status: TxStatus): Transaction -> bool {
    (tx: Transaction) => OnCard(cardNumber)(tx) && tx.status == status
  }

  /** `getCardStats`: the number of the card's transactions (every
      transaction for 'all'), the sum of their amounts and how many of them
      are matched and unmatched. The two statuses are the only ones a
      transaction has here, so matched and unmatched add up to the count. */
  function GetCardStats(txs: seq<Transaction>, cardNumber: string): (st: CardStats)
    ensures st.count == Count(txs, OnCard(cardNumber)) && st.count <= |txs|
    ensures st.matched == Count(txs, OnCardWith(cardNumber, Matched))
    ensures st.unmatched == Count(txs, OnCardWith(cardNumber, Unmatched))
    ensures st.matched + st.unmatched == st.count
    ensures cardNumber == "all" ==> st.count == |txs| && st.total == TotalAmount(txs)
  {
    var cardTxs := Filter(txs, OnCard(cardNumber));
    StatusPartition(cardTxs);
    FilterFilter(txs, OnCard(cardNumber), IsMatchedTx(), OnCardWith(cardNumber, Matched));
    FilterFilter(txs, OnCard(cardNumber), IsUnmatchedTx(), OnCardWith(cardNumber, Unmatched));
    assert cardNumber == "all" ==> cardTxs == txs by {
      if cardNumber == "all" {
        FilterAll(txs, OnCard(cardNumber));
      }
    }
    CardStats(TotalAmount(cardTxs), |cardTxs|, Count(cardTxs, IsMatchedTx()), Count(cardTxs, IsUnmatchedTx()))
  }

  function AddStats(a: CardStats, b: CardStats): CardStats {
    CardStats(a.total + b.total, a.count + b.count, a.matched + b.matched, a.unmatched + b.unmatched)
  }

  lemma AddStatsShuffle(a: CardStats, b: CardStats, c: CardStats)
    ensures AddStats(AddStats(a, b), c) == AddStats(a, AddStats(b, c))
    ensures AddStats(b, AddStats(a, c)) == AddStats(a, AddStats(b, c))
  {
  }

  /** The figures of a single transaction. */
  function TxStats(tx: Transaction): CardStats {
    CardStats(tx.amount, 1, if tx.status == Matched then 1 else 0, if tx.status == Unmatched then 1 else 0)
  }

  /** The figures of the card tabs added up. */
  function StatsOver(txs: seq<Transaction>, cardNumbers: seq<string>): CardStats {
    if cardNumbers == [] then CardStats(0, 0, 0, 0)
    else AddStats(GetCardStats(txs, cardNumbers[0]), StatsOver(txs, cardNumbers[1..]))
  }

  /** A transaction adds its own figures to its card's stats, and to no other card's. */
  lemma CardStatsCons(tx: Transaction, rest: seq<Transaction>, cardNumber: string)
    ensures OnCard(cardNumber)(tx) ==>
      GetCardStats([tx] + rest, cardNumber) == AddStats(TxStats(tx), GetCardStats(rest, cardNumber))
    ensures !OnCard(cardNumber)(tx) ==> GetCardStats([tx] + rest, cardNumber) == GetCardStats(rest, cardNumber)
  {
    assert ([tx] + rest)[1..] == rest;
    var f := Filter(rest, OnCard(cardNumber));
    if OnCard(cardNumber)(tx) {
      assert ([tx] + f)[1..] == f;
    }
  }

  lemma {:induction false} StatsOverCons(tx: Transaction, rest: seq<Transaction>, cardNumbers: seq<string>)
    requires NoDup(cardNumbers) && "all" !in cardNumbers
    ensures tx.cardNumber in cardNumbers ==>
      StatsOver([tx] + rest, cardNumbers) == AddStats(TxStats(tx), StatsOver(rest, cardNumbers))
    ensures tx.cardNumber !in cardNumbers ==> StatsOver([tx] + rest, cardNumbers) == StatsOver(rest, cardNumbers)
  {
    if cardNumbers != [] {
      var c := cardNumbers[0];
      assert NoDup(cardNumbers[1..]) && "all" !in cardNumbers[1..];
      assert c == tx.cardNumber ==> tx.cardNumber !in cardNumbers[1..];
      StatsOverCons(tx, rest, cardNumbers[1..]);
      CardStatsCons(tx, rest, c);
      var t, g, r := TxStats(tx), GetCardStats(rest, c), StatsOver(rest, cardNumbers[1..]);
      AddStatsShuffle(t, g, r);
      if c == tx.cardNumber {
        assert StatsOver([tx] + rest, cardNumbers) == AddStats(AddStats(t, g), r);
      } else {
        assert StatsOver([tx] + rest, cardNumbers) == AddStats(g, StatsOver([tx] + rest, cardNumbers[1..]));
      }
    }
  }

  /** With one tab per card, no card named 'all' and every transaction on a
      listed card, the tabs' figures add up to those of 'all'. */
  lemma {:induction false} CardStatsAddUp(txs: seq<Transaction>, cardNumbers: seq<string>)
    requires NoDup(cardNumbers) && "all" !in cardNumbers
    requires forall k :: 0 <= k < |txs| ==> txs[k].cardNumber in cardNumbers
    ensures StatsOver(txs, cardNumbers) == GetCardStats(txs, "all")
  {
    if txs == [] {
      EmptyStatsOver(cardNumbers);
    } else {
      assert txs == [txs[0]] + txs[1..];
      CardStatsAddUp(txs[1..], cardNumbers);
      StatsOverCons(txs[0], txs[1..], cardNumbers);
      CardStatsCons(txs[0], txs[1..], "all");
    }
  }

  lemma {:induction false} EmptyStatsOver(cardNumbers: seq<string>)
    ensures StatsOver([], cardNumbers) == CardStats(0, 0, 0, 0)
  {
    if cardNumbers != [] {
      EmptyStatsOver(cardNumbers[1..]);
    }
  }

  /** The loop of `handleAutoMatch` over copies of the two lists: each unmatched
      transaction is paired with the first fitting receipt left in the pool, and
      that receipt is spliced out. */
  method AutoMatchLoop(original: seq<Transaction>, receipts: seq<Receipt>)
    returns (updated: seq<Transaction>, pool: seq<Receipt>, matchCount: nat)
    ensures updated == AutoMatchFrom(original, receipts).transactions
    ensures pool == AutoMatchFrom(original, receipts).receipts
    ensures matchCount == |AutoMatchFrom(original, receipts).used| && matchCount == |receipts| - |pool|
  {
    updated := original;
    pool := receipts;
    matchCount := 0;
    ghost var goal := AutoMatchFrom(original, receipts);
    for i := 0 to |original|
      invariant |updated| == |original| && updated[i..] == original[i..]
      invariant forall k :: 0 <= k < i ==> updated[k] == goal.transactions[k]
      invariant AutoMatchFrom(original[i..], pool).transactions == goal.transactions[i..]
      invariant AutoMatchFrom(original[i..], pool).receipts == goal.receipts
      invariant matchCount + |AutoMatchFrom(original[i..], pool).used| == |goal.used|
    {
      var tx := updated[i];
      ghost var before := pool;
      AutoMatchStep(original, pool, i);
      if tx.status == Unmatched {
        var j := FindPairIndex(pool, tx);
        if j.Some? {
          updated := updated[i := LinkTo(tx, pool[j.value])];
          pool := RemoveAt(pool, j.value);
          matchCount := matchCount + 1;
        }
      }
      ghost var rest := AutoMatchFrom(original[i + 1..], pool);
      assert goal.transactions[i..] == [updated[i]] + rest.transactions;
      assert goal.transactions[i..][1..] == goal.transactions[i + 1..];
    }
    assert updated == goal.transactions;
  }

  /** The page state. */
  class CardLedger {
    var transactions: seq<Transaction>
    var unmatchedReceipts: seq<Receipt>
    var searchTerm: string
    var statusFilter: string
    var dateSort: SortOrder
    var selectedTransaction: Option<Transaction>
    var receiptMatchDialogOpen: bool
    var cards: seq<Card>
    var selectedCardFilter: string
    var cardTabValue: nat

    constructor (transactions: seq<Transaction>, receipts: seq<Receipt>, cards: seq<Card>)
      ensures this.transactions == transactions && unmatchedReceipts == receipts && this.cards == cards
      ensures searchTerm == "" && statusFilter == "all" && dateSort == Desc && selectedTransaction.None?
      ensures !receiptMatchDialogOpen && selectedCardFilter == "all" && cardTabValue == 0
    {
      this.transactions := transactions;
      unmatchedReceipts := receipts;
      searchTerm := "";
      statusFilter := "all";
      dateSort := Desc;
      selectedTransaction := None;
      receiptMatchDialogOpen := false;
      this.cards := cards;
      selectedCardFilter := "all";
      cardTabValue := 0;
    }

    /** `handleAutoMatch`: walks a copy of the transactions, pairs each unmatched
        one with the first fitting receipt still in the pool, and splices that
        receipt out; the count is the number of pairs made. */
    method AutoMatch() returns (matchCount: nat)
      modifies this
      ensures transactions == AutoMatchFrom(old(transactions), old(unmatchedReceipts)).transactions
      ensures unmatchedReceipts == AutoMatchFrom(old(transactions), old(unmatchedReceipts)).receipts
      ensures matchCount == |AutoMatchFrom(old(transactions), old(unmatchedReceipts)).used|
      ensures searchTerm == old(searchTerm) && statusFilter == old(statusFilter) && dateSort == old(dateSort) &&
        selectedTransaction == old(selectedTransaction) && receiptMatchDialogOpen == old(receiptMatchDialogOpen) &&
        cards == old(cards) && selectedCardFilter == old(selectedCardFilter) && cardTabValue == old(cardTabValue)
    {
      var updated, pool;
      updated, pool, matchCount := AutoMatchLoop(transactions, unmatchedReceipts);
      transactions := updated;
      unmatchedReceipts := pool;
    }

    /** `handleManualMatch`: the transaction is selected and the receipt dialog opens. */
    method ManualMatch(tx: Transaction)
      modifies this
      ensures selectedTransaction == Some(tx) && receiptMatchDialogOpen
      ensures transactions == old(transactions) && unmatchedReceipts == old(unmatchedReceipts) &&
        searchTerm == old(searchTerm) && statusFilter == old(statusFilter) && dateSort == old(dateSort) &&
        cards == old(cards) && selectedCardFilter == old(selectedCardFilter) && cardTabValue == old(cardTabValue)
    {
      selectedTransaction := Some(tx);
      receiptMatchDialogOpen := true;
    }

    /** `handleConfirmMatch`: the dialog closes; nothing else happens unless the
        receipt is in the pool and a transaction is selected. */
    method ConfirmMatch(receiptId: string)
      modifies this
      ensures !receiptMatchDialogOpen
      ensures ((exists k :: 0 <= k < |old(unmatchedReceipts)| && old(unmatchedReceipts)[k].id == receiptId) &&
               old(selectedTransaction).Some?) ==>
        transactions == SetTxStatus(old(transactions), old(selectedTransaction).value.id, Matched, Some(receiptId), Some("Verified")) &&
        unmatchedReceipts == Filter(old(unmatchedReceipts), NotReceipt(receiptId))
      ensures !((exists k :: 0 <= k < |old(unmatchedReceipts)| && old(unmatchedReceipts)[k].id == receiptId) &&
                old(selectedTransaction).Some?) ==>
        transactions == old(transactions) && unmatchedReceipts == old(unmatchedReceipts)
      ensures searchTerm == old(searchTerm) && statusFilter == old(statusFilter) && dateSort == old(dateSort) &&
        selectedTransaction == old(selectedTransaction) &&
        cards == old(cards) && selectedCardFilter == old(selectedCardFilter) && cardTabValue == old(cardTabValue)
    {
      receiptMatchDialogOpen := false;
      var found := exists k :: 0 <= k < |unmatchedReceipts| && unmatchedReceipts[k].id == receiptId;
      if found && selectedTransaction.Some? {
        transactions := SetTxStatus(transactions, selectedTransaction.value.id, Matched, Some(receiptId), Some("Verified"));
        unmatchedReceipts := Filter(unmatchedReceipts, NotReceipt(receiptId));
      }
    }

    /** `handleUnlink`: every transaction with the id is reset, and each one that
        had a receipt id gives a rebuilt receipt at the END of the pool. */
    method Unlink(tx: Transaction)
      modifies this
      ensures transactions == SetTxStatus(old(transactions), tx.id, Unmatched, None, None)
      ensures unmatchedReceipts == old(unmatchedReceipts) + UnlinkedReceipts(old(transactions), tx.id)
      ensures searchTerm == old(searchTerm) && statusFilter == old(statusFilter) && dateSort == old(dateSort) &&
        selectedTransaction == old(selectedTransaction) && receiptMatchDialogOpen == old(receiptMatchDialogOpen) &&
        cards == old(cards) && selectedCardFilter == old(selectedCardFilter) && cardTabValue == old(cardTabValue)
    {
      unmatchedReceipts := unmatchedReceipts + UnlinkedReceipts(transactions, tx.id);
      transactions := SetTxStatus(transactions, tx.id, Unmatched, None, None);
    }

    /** `handleCardTabChange`: tab 0 shows every card, tab k the k-th card. */
    method CardTabChange(tab: nat)
      requires tab <= |cards|
      modifies this
      ensures cardTabValue == tab
      ensures selectedCardFilter == if tab == 0 then "all" else old(cards)[tab - 1].cardNumber
      ensures transactions == old(transactions) && unmatchedReceipts == old(unmatchedReceipts) &&
        searchTerm == old(searchTerm) && statusFilter == old(statusFilter) && dateSort == old(dateSort) &&
        selectedTransaction == old(selectedTransaction) && receiptMatchDialogOpen == old(receiptMatchDialogOpen) &&
        cards == old(cards)
    {
      cardTabValue := tab;
      if tab == 0 {
        selectedCardFilter := "all";
      } else {
        selectedCardFilter := cards[tab - 1].cardNumber;
      }
    }

    method ToggleSort()
      modifies this
      ensures dateSort == Toggled(old(dateSort))
      ensures transactions == old(transactions) && unmatchedReceipts == old(unmatchedReceipts) &&
        searchTerm == old(searchTerm) && statusFilter == old(statusFilter) &&
        selectedTransaction == old(selectedTransaction) && receiptMatchDialogOpen == old(receiptMatchDialogOpen) &&
        cards == old(cards) && selectedCardFilter == old(selectedCardFilter) && cardTabValue == old(cardTabValue)
    {
      dateSort := Toggled(dateSort);
    }

    /** The rows on screen: filtered, then sorted by date. */
    function Visible(): (r: seq<Transaction>)
      reads this
      ensures SortedBy(r, dateSort)
      ensures multiset(r) == multiset(FilteredTransactions(transactions, searchTerm, statusFilter, selectedCardFilter))
    {
      SortByDate(FilteredTransactions(transactions, searchTerm, statusFilter, selectedCardFilter), dateSort)
    }
  }

  /** Confirming a receipt for a transaction whose id is unique and then unlinking
      it restores the transaction list, and the receipt comes back at the end of
      the pool, rebuilt from the transaction. */
  lemma ConfirmThenUnlink(txs: seq<Transaction>, pool: seq<Receipt>, p: nat, receiptId: string)
    requires p < |txs| && receiptId != ""
    requires forall k :: 0 <= k < |txs| && k != p ==> txs[k].id != txs[p].id
    requires AllUnmatched(txs, txs[p].id)
    ensures var linked := SetTxStatus(txs, txs[p].id, Matched, Some(receiptId), Some("Verified"));
      SetTxStatus(linked, txs[p].id, Unmatched, None, None) == txs &&
      Filter(pool, NotReceipt(receiptId)) + UnlinkedReceipts(linked, txs[p].id) ==
        Filter(pool, NotReceipt(receiptId)) + [Receipt(receiptId, txs[p].date, txs[p].merchantName, txs[p].amount, txs[p].category, "Unmatched")]
  {
    var id := txs[p].id;
    var linked := SetTxStatus(txs, id, Matched, Some(receiptId), Some("Verified"));
    SetTxStatusTwice(txs, id, Matched, Some(receiptId), Some("Verified"), Unmatched, None, None);
    SetTxStatusUnmatchedNoop(txs, id);
    UnlinkedReceiptsOfUnique(linked, id, p);
  }
}
