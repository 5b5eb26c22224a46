/** Scoring one card transaction against one expense item, and the static
    currency conversion the score uses.

    Converted amounts are in micro-dollars (a millionth of a dollar): an amount
    in cents times a rate scaled by 10^4. Every threshold of the score is then an
    exact integer: one cent is 10^4, one dollar 10^6. */
module MatchScore {
  import opened Basics
  import opened Text
  import opened Ledger
  import opened Seqs

  const MicrosPerCent: int := 10000
  const Cent: int := 10000
  const Dollar: int := 1000000

  /** The exchange-rate table, each rate times 10^4. */
  function RateE4(currency: string): Option<int> {
    if currency == "USD" then Some(10000)
    else if currency == "EUR" then Some(10900)
    else if currency == "GBP" then Some(12800)
    else if currency == "CAD" then Some(7400)
    else if currency == "AUD" then Some(6700)
    else if currency == "JPY" then Some(68)
    else if currency == "CNY" then Some(1400)
    else if currency == "INR" then Some(120)
    else None
  }

  /** `convertToUSD`: a zero (falsy) amount gives 0, an empty or 'USD' currency and
      an unknown currency keep the amount, a known currency MULTIPLIES by its rate. */
  function ConvertToUSD(amountCents: int, currency: string): (usd: int)
    ensures amountCents == 0 ==> usd == 0
    ensures currency == "" || RateE4(currency).None? ==> usd == amountCents * MicrosPerCent
    ensures currency != "" && RateE4(currency).Some? ==> usd == amountCents * RateE4(currency).value
  {
    if amountCents == 0 then 0
    else if currency == "" || currency == "USD" then amountCents * MicrosPerCent
    else match RateE4(currency)
      case None => amountCents * MicrosPerCent
      case Some(rate) => amountCents * rate
  }

  /** Conversion is linear in the amount, so a report total can be converted line by line. */
  lemma ConvertAdditive(a: int, b: int, currency: string)
    ensures ConvertToUSD(a + b, currency) == ConvertToUSD(a, currency) + ConvertToUSD(b, currency)
  {
  }

  /** `amountDiff / expenseAmountUSD < 0.1` on exact numbers: a zero divisor gives
      Infinity (false), a negative one a negative quotient (true). */
  predicate WithinTenPercent(diff: nat, expenseUSD: int) {
    if expenseUSD > 0 then 10 * diff < expenseUSD else expenseUSD < 0
  }

  /** The amount part of the score, first matching tier wins. */
  function AmountScore(diff: nat, expenseUSD: int): (s: int)
    ensures s in {0, 10, 20, 30, 40, 50}
    ensures s == 50 <==> diff < Cent
  {
    if diff < Cent then 50
    else if diff < Dollar then 40
    else if diff < 5 * Dollar then 30
    else if diff < 10 * Dollar then 20
    else if WithinTenPercent(diff, expenseUSD) then 10
    else 0
  }

  /** With the expense amount fixed, a larger difference never scores higher. */
  lemma AmountScoreMonotone(d1: nat, d2: nat, expenseUSD: int)
    requires d1 <= d2
    ensures AmountScore(d2, expenseUSD) <= AmountScore(d1, expenseUSD)
  {
  }

  function Min(a: int, b: int): int {
    if a <= b then a else b
  }

  /** A vendor token counts when it is longer than two characters and occurs
      inside some merchant token. */
  function Qualifies(merchantWords: seq<string>): string -> bool {
    (w: string) => |w| > 2 && exists m :: m in merchantWords && Contains(m, w)
  }

  /** The expense-vendor tokens longer than two characters that occur inside
      some merchant token: every such token, repeats included, in vendor
      order. */
  function CommonWords(vendorWords: seq<string>, merchantWords: seq<string>): (common: seq<string>)
    ensures common == Filter(vendorWords, Qualifies(merchantWords))
    ensures |common| == Count(vendorWords, Qualifies(merchantWords)) && |common| <= |vendorWords|
    ensures forall w :: w in common ==>
      (w in vendorWords && |w| > 2 && exists m :: m in merchantWords && Contains(m, w))
    ensures forall k :: 0 <= k < |vendorWords| && Qualifies(merchantWords)(vendorWords[k]) ==> vendorWords[k] in common
  {
    if vendorWords == [] then []
    else
      var rest := CommonWords(vendorWords[1..], merchantWords);
      var w := vendorWords[0];
      if |w| > 2 && exists m :: m in merchantWords && Contains(m, w) then [w] + rest else rest
  }

  /** The vendor part of the score, on lower-cased names: 30 for equal
      names, 25 when one contains the other, otherwise 5 per common word up
      to 20. */
  function VendorScore(vendor: string, merchantName: string): (s: int)
    ensures 0 <= s <= 30
    ensures s == 30 <==> Lower(vendor) == Lower(merchantName)
    ensures s == 25 <==>
      (Lower(vendor) != Lower(merchantName) &&
       (Contains(Lower(vendor), Lower(merchantName)) || Contains(Lower(merchantName), Lower(vendor))))
    ensures (Lower(vendor) != Lower(merchantName) &&
             !Contains(Lower(vendor), Lower(merchantName)) && !Contains(Lower(merchantName), Lower(vendor))) ==>
      s == Min(20, 5 * Count(Tokens(Lower(vendor)), Qualifies(Tokens(Lower(merchantName)))))
  {
    var v := Lower(vendor);
    var m := Lower(merchantName);
    if v == m then 30
    else if Contains(v, m) || Contains(m, v) then 25
    else
      var common := CommonWords(Tokens(v), Tokens(m));
      if |common| > 0 then Min(20, |common| * 5) else 0
  }

  /** The date part of the score, on the whole-day distance between the dates. */
  function DateScore(daysDiff: nat): (s: int)
    ensures s in {0, 5, 10, 15, 20}
    ensures s == 20 <==> daysDiff == 0
    ensures s == 0 <==> daysDiff >= 8
  {
    if daysDiff < 1 then 20
    else if daysDiff < 2 then 15
    else if daysDiff < 4 then 10
    else if daysDiff < 8 then 5
    else 0
  }

  function Abs(x: int): nat {
    if x < 0 then -x else x
  }

  /** `calculateMatchScore(transaction, expense, expenseAmountUSD)`. */
  function Score(tx: Transaction, expense: ExpenseItem, expenseUSD: int): (s: int)
    ensures 0 <= s <= 100
  {
    AmountScore(Abs(tx.amount * MicrosPerCent - expenseUSD), expenseUSD)
      + VendorScore(expense.vendor, tx.merchantName)
      + DateScore(Abs(expense.date - tx.date))
  }

  /** The ceiling is reached by a penny-exact amount, equal names and the same day,
      and only by them. */
  lemma ScoreHundredIff(tx: Transaction, expense: ExpenseItem, expenseUSD: int)
    ensures Score(tx, expense, expenseUSD) == 100 <==>
      Abs(tx.amount * MicrosPerCent - expenseUSD) < Cent &&
      Lower(expense.vendor) == Lower(tx.merchantName) &&
      expense.date == tx.date
  {
  }

  /** Keeping vendor and dates fixed, a transaction further off in amount scores no higher. */
  lemma ScoreMonotoneInAmount(tx1: Transaction, tx2: Transaction, expense: ExpenseItem, expenseUSD: int)
    requires tx1.merchantName == tx2.merchantName && tx1.date == tx2.date
    requires Abs(tx1.amount * MicrosPerCent - expenseUSD) <= Abs(tx2.amount * MicrosPerCent - expenseUSD)
    ensures Score(tx2, expense, expenseUSD) <= Score(tx1, expense, expenseUSD)
  {
    AmountScoreMonotone(Abs(tx1.amount * MicrosPerCent - expenseUSD), Abs(tx2.amount * MicrosPerCent - expenseUSD), expenseUSD);
  }
}
