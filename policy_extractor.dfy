/** The rule bookkeeping of the extraction back end: which saved rules apply
    to an invoice, how rules and line items are written into the compliance
    prompt, and how extracted policies are de-duplicated and renumbered. */
module PolicyExtractor {
  import opened Basics
  import opened Seqs
  import opened Text
  import opened RuleStore
  import opened Policies

  /** The invoice's keys after normalisation. */
  datatype Invoice = Invoice(country: string, seniority: string, expenseType: string)

  /** `s.replace(' ', '_')`. */
  function Underscored(s: string): (r: string)
    ensures |r| == |s|
    ensures forall i :: 0 <= i < |s| ==> r[i] == (if s[i] == ' ' then '_' else s[i])
  {
    seq(|s|, i requires 0 <= i < |s| => if s[i] == ' ' then '_' else s[i])
  }

  /** `(x or '')`: a missing value reads as the empty string. */
  function OrEmpty(x: Option<string>): string {
    x.GetOr("")
  }

  /** The invoice keys lower-cased, with 'global' and 'all' for a missing
      country, seniority or expense type, and underscores for spaces in the
      expense type. */
  function NormalizeInvoice(country: Option<string>, seniority: Option<string>, expenseType: Option<string>): (inv: Invoice)
    ensures inv.country != "" && inv.seniority != "" && inv.expenseType != ""
    ensures OrEmpty(country) == "" ==> inv.country == "global"
    ensures OrEmpty(country) != "" ==> inv.country == Lower(OrEmpty(country))
    ensures OrEmpty(seniority) == "" ==> inv.seniority == "all"
    ensures OrEmpty(seniority) != "" ==> inv.seniority == Lower(OrEmpty(seniority))
    ensures OrEmpty(expenseType) == "" ==> inv.expenseType == "all"
    ensures OrEmpty(expenseType) != "" ==>
      |inv.expenseType| == |OrEmpty(expenseType)| &&
      forall i :: 0 <= i < |inv.expenseType| ==> inv.expenseType[i] != ' ' && inv.expenseType[i] == Underscored(Lower(OrEmpty(expenseType)))[i]
  {
    var c := Lower(OrEmpty(country));
    var s := Lower(OrEmpty(seniority));
    var e := Underscored(Lower(OrEmpty(expenseType)));
    Invoice(if c == "" then "global" else c, if s == "" then "all" else s, if e == "" then "all" else e)
  }

  /** Whether a rule applies to the invoice: each of its keys, lower-cased,
      is the wildcard or equals the invoice's key. */
  predicate Applies(rule: TaggedRule, inv: Invoice) {
    (Lower(rule.country) == "global" || Lower(rule.country) == inv.country) &&
    (Lower(rule.seniority) == "all" || Lower(rule.seniority) == inv.seniority) &&
    (Lower(rule.expenseType) == "all" || Lower(rule.expenseType) == inv.expenseType)
  }

  function AppliesTo(inv: Invoice): TaggedRule -> bool {
    (rule: TaggedRule) => Applies(rule, inv)
  }

  /** `filter_applicable_policies`. */
  method FilterApplicable(rules: seq<TaggedRule>, country: Option<string>, seniority: Option<string>, expenseType: Option<string>)
    returns (applicable: seq<TaggedRule>)
    ensures applicable == Filter(rules, AppliesTo(NormalizeInvoice(country, seniority, expenseType)))
  {
    var inv := NormalizeInvoice(country, seniority, expenseType);
    applicable := [];
    var i := 0;
    while i < |rules|
      invariant 0 <= i <= |rules|
      invariant applicable == Filter(rules[..i], AppliesTo(inv))
    {
      assert rules[..i + 1] == rules[..i] + [rules[i]];
      FilterAppend(rules[..i], [rules[i]], AppliesTo(inv));
      assert Filter([rules[i]], AppliesTo(inv)) == if Applies(rules[i], inv) then [rules[i]] else [];
      if Applies(rules[i], inv) {
        applicable := applicable + [rules[i]];
      }
      i := i + 1;
    }
    assert rules[..i] == rules;
  }

  /** A rule is kept exactly when it applies. */
  lemma KeptIffApplies(rules: seq<TaggedRule>, inv: Invoice, k: nat)
    requires k < |rules|
    ensures rules[k] in Filter(rules, AppliesTo(inv)) <==> Applies(rules[k], inv)
  {
    var kept := Filter(rules, AppliesTo(inv));
    if rules[k] in kept {
      var j :| 0 <= j < |kept| && kept[j] == rules[k];
      assert AppliesTo(inv)(kept[j]);
    }
  }

  /** The filtered rules are the input rules in their original order, some left out. */
  lemma FilterIsSubsequence(rules: seq<TaggedRule>, inv: Invoice)
    ensures SubsequenceOf(Filter(rules, AppliesTo(inv)), rules)
  {
    FilterSubsequence(rules, AppliesTo(inv));
  }

  /** A rule tagged global/all/all applies to every invoice. */
  lemma WildcardRuleApplies(rule: TaggedRule, country: Option<string>, seniority: Option<string>, expenseType: Option<string>)
    requires Lower(rule.country) == "global" && Lower(rule.seniority) == "all" && Lower(rule.expenseType) == "all"
    ensures Applies(rule, NormalizeInvoice(country, seniority, expenseType))
  {
  }

  // format_applicable_policies

  function CountryLabel(c: string): string {
    if c == "Global" then "All countries" else c
  }

  function SeniorityLabel(s: string): string {
    if s == "All" then "All employee levels" else s + " level employees"
  }

  function TypeLabel(e: string): string {
    if e == "All" then "All expense categories" else e + " expenses"
  }

  /** The four prompt lines describing one rule under its number. */
  function Describe(num: string, rule: string, country: string, level: string, category: string): string {
    num + ". POLICY: " + rule + "\n"
      + "   APPLIES TO: " + country + "\n"
      + "   EMPLOYEE LEVEL: " + level + "\n"
      + "   EXPENSE TYPE: " + category
  }

  /** The prompt block of the `i`-th rule. */
  function Block(i: nat, r: TaggedRule): string {
    Describe(NatToString(i), r.rule, CountryLabel(r.country), SeniorityLabel(r.seniority), TypeLabel(r.expenseType))
  }

  const DefaultPolicy := "Invoice must have valid information and comply with general expense guidelines."

  /** The block written when no rule applies: the default policy, numbered 1,
      for all countries, employee levels and expense categories. */
  const DefaultBlock := Describe("1", DefaultPolicy, "All countries", "All employee levels", "All expense categories")

  /** The default block is the block of a first rule tagged Global/All/All. */
  lemma DefaultBlockIsWildcardBlock()
    ensures DefaultBlock == Block(1, TaggedRule(DefaultPolicy, "Global", "All", "All"))
  {
    assert NatToString(1) == "1";
  }

  /** One block per rule, numbered from 1. */
  function Blocks(rules: seq<TaggedRule>): (bs: seq<string>)
    ensures |bs| == |rules|
  {
    seq(|rules|, i requires 0 <= i < |rules| => Block(i + 1, rules[i]))
  }

  /** `format_applicable_policies`: exactly the default block when no rule
      applies, otherwise the numbered blocks one after the other. */
  method FormatApplicablePolicies(rules: seq<TaggedRule>) returns (text: string)
    ensures rules == [] ==> text == DefaultBlock
    ensures rules != [] ==> text == Join("\n", Blocks(rules))
  {
    var formatted: seq<string> := [];
    var i := 0;
    while i < |rules|
      invariant 0 <= i <= |rules|
      invariant formatted == Blocks(rules)[..i]
    {
      formatted := formatted + [Block(i + 1, rules[i])];
      i := i + 1;
    }
    if formatted == [] {
      formatted := [DefaultBlock];
    } else {
      assert formatted == Blocks(rules);
    }
    text := Join("\n", formatted);
  }

  /** As written, a rule stored with the lower-case wildcards the rest of the
      system uses is not described as a wildcard. */
  lemma LowerCaseWildcardsAsWritten(x: string)
    ensures Block(1, TaggedRule(x, "global", "all", "all")) ==
      Describe("1", x, "global", "all" + " level employees", "all" + " expenses")
  {
    assert NatToString(1) == "1";
  }

  function CountryLabelFixed(c: string): string {
    if Lower(c) == "global" then "All countries" else c
  }

  function SeniorityLabelFixed(s: string): string {
    if Lower(s) == "all" then "All employee levels" else s + " level employees"
  }

  function TypeLabelFixed(e: string): string {
    if Lower(e) == "all" then "All expense categories" else e + " expenses"
  }

  /** The block with the wildcards recognised in any letter case, as the filter recognises them. */
  function BlockFixed(i: nat, r: TaggedRule): string {
    Describe(NatToString(i), r.rule, CountryLabelFixed(r.country), SeniorityLabelFixed(r.seniority), TypeLabelFixed(r.expenseType))
  }

  /** Corrected, a rule the filter treats as applying everywhere is described
      as applying everywhere, in either letter case, and the default block is
      the block of the lower-case wildcard rule. */
  lemma WildcardsDescribedFixed(i: nat, r: TaggedRule)
    requires Lower(r.country) == "global" && Lower(r.seniority) == "all" && Lower(r.expenseType) == "all"
    ensures BlockFixed(i, r) == Describe(NatToString(i), r.rule, "All countries", "All employee levels", "All expense categories")
    ensures DefaultBlock == BlockFixed(1, TaggedRule(DefaultPolicy, "global", "all", "all"))
  {
    assert NatToString(1) == "1";
    assert Lower("global") == "global";
    assert Lower("all") == "all";
  }

  // format_line_items

  /** One extracted line item; each field is the text its value prints as. */
  datatype LineItem = LineItem(description: Option<string>, quantity: Option<string>, amount: Option<string>)

  function Field(x: Option<string>): string {
    x.GetOr("Not provided")
  }

  function Entry(idx: nat, item: LineItem): (e: string)
    ensures IsPrefix(NatToString(idx) + ". Description: " + Field(item.description) + "\n", e)
  {
    var head := NatToString(idx) + ". Description: " + Field(item.description) + "\n";
    var e := head + "   Quantity: " + Field(item.quantity) + "\n" + "   Amount: " + Field(item.amount);
    assert e[..|head|] == head;
    e
  }

  /** `format_line_items`: "No items found" for a missing or empty list,
      otherwise one numbered entry per item. */
  method FormatLineItems(items: Option<seq<LineItem>>) returns (text: string)
    ensures items.None? || items.value == [] ==> text == "No items found"
    ensures items.Some? && items.value != [] ==>
      exists entries: seq<string> ::
        text == Join("\n", entries) && |entries| == |items.value| &&
        forall i :: 0 <= i < |entries| ==> entries[i] == Entry(i + 1, items.value[i])
  {
    if items.None? || items.value == [] {
      return "No items found";
    }
    var xs := items.value;
    var formatted: seq<string> := [];
    var i := 0;
    while i < |xs|
      invariant 0 <= i <= |xs|
      invariant |formatted| == i
      invariant forall j :: 0 <= j < i ==> formatted[j] == Entry(j + 1, xs[j])
    {
      formatted := formatted + [Entry(i + 1, xs[i])];
      i := i + 1;
    }
    text := Join("\n", formatted);
  }

  // remove_duplicate_policies

  /** The regular-expression class `\w`, restricted to ASCII. */
  predicate IsWordChar(c: char) {
    'a' <= c <= 'z' || 'A' <= c <= 'Z' || '0' <= c <= '9' || c == '_'
  }

  /** Python's `\s`: the ASCII whitespace and the four separator controls. */
  predicate PySpace(c: char) {
    IsSpace(c) || 28 <= c as int <= 31
  }

  predicate KeepChar(c: char) {
    IsWordChar(c) || PySpace(c)
  }

  /** `re.sub(r'[^\w\s]', '', s)`: the characters other than word characters
      and whitespace removed. */
  function Unpunctuate(s: string): (r: string)
    ensures |r| <= |s|
  {
    if s == [] then []
    else if KeepChar(s[0]) then [s[0]] + Unpunctuate(s[1..])
    else Unpunctuate(s[1..])
  }

  lemma {:induction false} UnpunctuateShape(s: string)
    ensures forall i :: 0 <= i < |Unpunctuate(s)| ==> KeepChar(Unpunctuate(s)[i])
  {
    if s != [] {
      UnpunctuateShape(s[1..]);
    }
  }

  function SkipSpaces(s: string): (r: string)
    ensures |r| <= |s|
  {
    if s != [] && PySpace(s[0]) then SkipSpaces(s[1..]) else s
  }

  lemma {:induction false} SkipSpacesShape(s: string)
    ensures forall c :: c in SkipSpaces(s) ==> c in s
    ensures SkipSpaces(s) == [] || !PySpace(SkipSpaces(s)[0])
  {
    if s != [] && PySpace(s[0]) {
      SkipSpacesShape(s[1..]);
    }
  }

  /** `re.sub(r'\s+', ' ', s)`: every run of whitespace becomes one space. */
  function Collapse(s: string): (r: string)
    decreases |s|
  {
    if s == [] then []
    else if PySpace(s[0]) then [' '] + Collapse(SkipSpaces(s[1..]))
    else [s[0]] + Collapse(s[1..])
  }

  /** After collapsing, the only whitespace left is single spaces, and every
      other character comes from the input. */
  lemma {:induction false} CollapseShape(s: string)
    ensures forall i :: 0 <= i < |Collapse(s)| ==> (Collapse(s)[i] == ' ' || (!PySpace(Collapse(s)[i]) && Collapse(s)[i] in s))
    ensures forall i :: 0 <= i < |Collapse(s)| - 1 ==> !(Collapse(s)[i] == ' ' && Collapse(s)[i + 1] == ' ')
    ensures s != [] ==> Collapse(s) != [] && Collapse(s)[0] == (if PySpace(s[0]) then ' ' else s[0])
    decreases |s|
  {
    if s != [] {
      if PySpace(s[0]) {
        var rest := SkipSpaces(s[1..]);
        SkipSpacesShape(s[1..]);
        CollapseShape(rest);
      } else {
        CollapseShape(s[1..]);
      }
    }
  }

  /** The signature texts are compared by: lower-cased, punctuation removed,
      whitespace runs collapsed, ends stripped. */
  function Signature(text: string): string {
    TrimEnd(TrimStart(Collapse(Unpunctuate(Lower(text)))))
  }

  /** A signature is words of letters, digits and underscores separated by
      single spaces. */
  lemma SignatureShape(text: string)
    ensures forall i :: 0 <= i < |Signature(text)| ==> IsWordChar(Signature(text)[i]) || Signature(text)[i] == ' '
    ensures forall i :: 0 <= i < |Signature(text)| - 1 ==> !(Signature(text)[i] == ' ' && Signature(text)[i + 1] == ' ')
    ensures Signature(text) == [] || (Signature(text)[0] != ' ' && Signature(text)[|Signature(text)| - 1] != ' ')
  {
    var kept := Unpunctuate(Lower(text));
    UnpunctuateShape(Lower(text));
    var collapsed := Collapse(kept);
    CollapseShape(kept);
    var front := TrimStart(collapsed);
    var sig := TrimEnd(front);
    var off := |collapsed| - |front|;
    forall i | 0 <= i < |sig|
      ensures sig[i] == collapsed[off + i]
    {
      assert sig[i] == front[i];
    }
    if sig != [] {
      assert sig[0] == front[0];
    }
  }

  function SignatureOf(p: Policy): string {
    Signature(p.text)
  }

  /** `remove_duplicate_policies`: the first policy of every signature, in
      input order. */
  method RemoveDuplicatePolicies(ps: seq<Policy>) returns (unique: seq<Policy>)
    ensures unique == FirstByKey(ps, SignatureOf)
  {
    if ps == [] {
      return [];
    }
    unique := [];
    var seen: set<string> := {};
    var i := 0;
    while i < |ps|
      invariant 0 <= i <= |ps|
      invariant unique == FirstByKey(ps[..i], SignatureOf)
      invariant seen == KeysOf(unique, SignatureOf)
    {
      FirstByKeyStep(ps, i, SignatureOf);
      var sig := SignatureOf(ps[i]);
      if sig !in seen {
        KeysOfAppend(unique, ps[i], SignatureOf);
        seen := seen + {sig};
        unique := unique + [ps[i]];
      }
      i := i + 1;
    }
    assert ps[..i] == ps;
  }

  /** What de-duplication promises: the kept policies are input policies in
      input order, no two share a signature, every signature of the input is
      still present, and de-duplicating again changes nothing. */
  lemma DedupProperties(ps: seq<Policy>)
    ensures SubsequenceOf(FirstByKey(ps, SignatureOf), ps)
    ensures forall i, j :: 0 <= i < j < |FirstByKey(ps, SignatureOf)| ==>
      Signature(FirstByKey(ps, SignatureOf)[i].text) != Signature(FirstByKey(ps, SignatureOf)[j].text)
    ensures KeysOf(FirstByKey(ps, SignatureOf), SignatureOf) == KeysOf(ps, SignatureOf)
    ensures FirstByKey(FirstByKey(ps, SignatureOf), SignatureOf) == FirstByKey(ps, SignatureOf)
  {
    FirstByKeyFromInput(ps, SignatureOf);
    FirstByKeyDistinct(ps, SignatureOf);
    FirstByKeyCovers(ps, SignatureOf);
    FirstByKeyOfDistinct(FirstByKey(ps, SignatureOf), SignatureOf);
  }

  /** Two policies whose texts differ only in letter case, punctuation or
      spacing count as one. */
  lemma DedupDropsVariant(p: Policy, q: Policy)
    requires Signature(p.text) == Signature(q.text)
    ensures FirstByKey([p, q], SignatureOf) == [p]
  {
    FirstByKeyDropsRepeat(p, q, SignatureOf);
  }

  /** The id the back end gives the policy at position `i`. */
  function SequentialId(i: nat): string {
    "p" + NatToString(i + 1)
  }

  lemma SequentialIdInjective(i: nat, j: nat)
    requires i != j
    ensures SequentialId(i) != SequentialId(j)
  {
    if SequentialId(i) == SequentialId(j) {
      assert SequentialId(i)[1..] == NatToString(i + 1);
      assert SequentialId(j)[1..] == NatToString(j + 1);
      NatToStringInjective(i + 1, j + 1);
    }
  }

  /** The loop that renumbers the de-duplicated policies p1, p2, ...: only
      the ids change, and afterwards no two ids are equal. */
  method ReassignIds(ps: seq<Policy>) returns (qs: seq<Policy>)
    ensures |qs| == |ps|
    ensures forall i :: 0 <= i < |ps| ==> qs[i] == ps[i].(id := SequentialId(i))
    ensures forall i, j :: 0 <= i < j < |qs| ==> qs[i].id != qs[j].id
  {
    qs := ps;
    var i := 0;
    while i < |qs|
      invariant 0 <= i <= |qs| && |qs| == |ps|
      invariant forall j :: 0 <= j < i ==> qs[j] == ps[j].(id := SequentialId(j))
      invariant forall j :: i <= j < |qs| ==> qs[j] == ps[j]
    {
      qs := qs[i := qs[i].(id := SequentialId(i))];
      i := i + 1;
    }
    forall i, j | 0 <= i < j < |qs|
      ensures qs[i].id != qs[j].id
    {
      SequentialIdInjective(i, j);
    }
  }
}
