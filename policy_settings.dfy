/** The policy settings page: the three-level rule store edited in place
    (add, delete, edit, drag to reorder), the counts shown beside the
    filters, and the conversion of the saved value when the page loads. */
module PolicySettings {
  import opened Basics
  import opened Seqs
  import opened Text
  import opened Assoc
  import opened RuleStore

  /** The eight built-in rules of the settings page. */
  const DefaultRules: seq<string> := [
    "Total amount should not exceed 200 in any currency",
    "Each individual item amount should not exceed 100 in any currency",
    "Quantity for each item should be greater than 0",
    "expense should not be more than 60 days in the past",
    "The expense date should not be in the future",
    "Invoice must have a valid invoice number",
    "Vendor name must be provided",
    "No alchohol items in the receipt"
  ]

  /** A rule approved on one of the extraction pages; a missing key is
      JavaScript's `undefined`. */
  datatype NewRule = NewRule(text: string, country: Option<string>, expenseType: Option<string>, seniority: Option<string>)

  /** A missing key used as an object key becomes the string "undefined". */
  function KeyOf(k: Option<string>): string {
    k.GetOr("undefined")
  }

  /** Whether the saved object has the legacy two-level layout: an array at
      `global.all`. */
  predicate IsTwoLevel(fields: seq<(string, Node)>) {
    var g := Get(fields, "global");
    g.Some? && g.value.Branch? && Get(g.value.children, "all").Some? && Get(g.value.children, "all").value.Leaf?
  }

  /** One country of the legacy layout moved under seniority 'all'. */
  function UnderAll(n: Node): Option<Levels> {
    match n
    case Branch(k) =>
      (match MapValuesOpt(k, ToLeaf)
       case Some(lf) => Some([("all", lf)])
       case None => None)
    case Leaf(rs) => if rs == [] then Some([("all", [])]) else None
  }

  /** The rules the page starts with. `None` stands for a saved value the
      page keeps verbatim although it is not a three-level rule store (a
      number, a string, an irregular object). */
  function LoadRules(stored: Stored): (r: Option<Rules>)
    ensures r.Some? ==> WellFormed(r.value)
    ensures stored.Absent? || stored.Malformed? || stored.Null? ==>
      r.Some? && RulesAt(r.value, "global", "all", "all") == Some(DefaultRules) && TotalCount(r.value) == 8
    ensures stored.FlatList? ==>
      r.Some? && RulesAt(r.value, "global", "all", "all") == Some(stored.items) && TotalCount(r.value) == |stored.items|
  {
    match stored
    case FlatList(xs) => Some(Nest("global", "all", "all", xs))
    case Object(fields) =>
      var conv := if IsTwoLevel(fields) then MapValuesOpt(fields, UnderAll) else ToRules(fields);
      if conv.Some? && WellFormed(conv.value) then conv else None
    case Scalar => None
    case _ => Some(Nest("global", "all", "all", DefaultRules))
  }

  /** Loading the legacy layout files every expense-type array of a country
      under that country, seniority 'all', same expense type. */
  lemma TwoLevelLoaded(fields: seq<(string, Node)>, c: string, e: string, rs: seq<string>)
    requires IsTwoLevel(fields) && LoadRules(Object(fields)).Some?
    requires Get(fields, c).Some? && Get(fields, c).value.Branch?
    requires Get(Get(fields, c).value.children, e) == Some(Leaf(rs))
    ensures RulesAt(LoadRules(Object(fields)).value, c, "all", e) == Some(rs)
  {
    var r := LoadRules(Object(fields)).value;
    var k := Get(fields, c).value.children;
    GetMapValues(fields, UnderAll, c);
    assert UnderAll(Branch(k)).Some?;
    GetMapValues(k, ToLeaf, e);
  }

  /** `getCurrentRules`: the selected leaf, or the empty list when any level is missing. */
  function CurrentRules(r: Rules, c: string, s: string, e: string): (xs: seq<string>)
    ensures !HasKey(r, c) ==> xs == []
    ensures HasKey(r, c) && !HasKey(Get(r, c).value, s) ==> xs == []
    ensures RulesAt(r, c, s, e).None? ==> xs == []
    ensures RulesAt(r, c, s, e).Some? ==> xs == RulesAt(r, c, s, e).value
  {
    RulesAt(r, c, s, e).GetOr([])
  }

  /** `rules[c][s][e].push(x)`, creating the missing levels. */
  function AddOne(r: Rules, c: string, s: string, e: string, x: string): (r': Rules)
    requires WellFormed(r)
    ensures WellFormed(r')
    ensures RulesAt(r', c, s, e) == Some(CurrentRules(r, c, s, e) + [x])
  {
    SetRulesWellFormed(r, c, s, e, CurrentRules(r, c, s, e) + [x]);
    SetRules(r, c, s, e, CurrentRules(r, c, s, e) + [x])
  }

  /** One push adds one to the total and leaves every other leaf alone. */
  lemma AddOneEffect(r: Rules, c: string, s: string, e: string, x: string)
    requires WellFormed(r)
    ensures TotalCount(AddOne(r, c, s, e, x)) == TotalCount(r) + 1
    ensures forall c', s', e' :: (c', s', e') != (c, s, e) ==> RulesAt(AddOne(r, c, s, e, x), c', s', e') == RulesAt(r, c', s', e')
  {
    SetRulesCount(r, c, s, e, CurrentRules(r, c, s, e) + [x]);
    forall c', s', e' | (c', s', e') != (c, s, e)
      ensures RulesAt(AddOne(r, c, s, e, x), c', s', e') == RulesAt(r, c', s', e')
    {
      SetRulesOther(r, c, s, e, CurrentRules(r, c, s, e) + [x], c', s', e');
    }
  }

  /** The `forEach` of `handleAddPolicyRules`: each rule pushed under its own keys, in order. */
  function AddAll(r: Rules, ns: seq<NewRule>): (r': Rules)
    requires WellFormed(r)
    ensures WellFormed(r')
  {
    if ns == [] then r
    else
      var n := ns[|ns| - 1];
      AddOne(AddAll(r, ns[..|ns| - 1]), KeyOf(n.country), KeyOf(n.seniority), KeyOf(n.expenseType), n.text)
  }

  /** Adding a batch grows the total by the batch size. */
  lemma {:induction false} AddAllCount(r: Rules, ns: seq<NewRule>)
    requires WellFormed(r)
    ensures TotalCount(AddAll(r, ns)) == TotalCount(r) + |ns|
  {
    if ns != [] {
      var n := ns[|ns| - 1];
      AddAllCount(r, ns[..|ns| - 1]);
      AddOneEffect(AddAll(r, ns[..|ns| - 1]), KeyOf(n.country), KeyOf(n.seniority), KeyOf(n.expenseType), n.text);
    }
  }

  method AddAllLoop(r: Rules, ns: seq<NewRule>) returns (r': Rules)
    requires WellFormed(r)
    ensures r' == AddAll(r, ns)
  {
    r' := r;
    var i := 0;
    while i < |ns|
      invariant 0 <= i <= |ns|
      invariant r' == AddAll(r, ns[..i])
    {
      assert ns[..i + 1][..i] == ns[..i];
      var n := ns[i];
      r' := AddOne(r', KeyOf(n.country), KeyOf(n.seniority), KeyOf(n.expenseType), n.text);
      i := i + 1;
    }
    assert ns[..i] == ns;
  }

  /** `splice(from, 1)` then `splice(to, 0, item)`: one element moved. */
  function Moved(l: seq<string>, from: nat, to: nat): (r: seq<string>)
    requires from < |l| && to < |l|
    ensures |r| == |l| && r[to] == l[from]
    ensures multiset(r) == multiset(l)
  {
    var rest := RemoveAt(l, from);
    var moved := InsertAt(rest, to, l[from]);
    assert multiset(moved) == multiset(l) by {
      assert l == l[..from] + [l[from]] + l[from + 1..];
      assert rest == l[..from] + l[from + 1..];
      assert moved == rest[..to] + [l[from]] + rest[to..];
      assert rest == rest[..to] + rest[to..];
      calc {
        multiset(moved);
        multiset(rest[..to]) + multiset{l[from]} + multiset(rest[to..]);
        multiset(rest) + multiset{l[from]};
        multiset(l[..from]) + multiset(l[from + 1..]) + multiset{l[from]};
        multiset(l);
      }
    }
    moved
  }

  /** Every rule count over all leaves, with nested loops as on the page. */
  method CountRules(r: Rules) returns (count: int)
    ensures count == TotalCount(r)
  {
    count := 0;
    var i := 0;
    while i < |r|
      invariant 0 <= i <= |r|
      invariant count == SumBy(r[..i], LevelsCount)
    {
      var lv := r[i].1;
      var j := 0;
      while j < |lv|
        invariant 0 <= j <= |lv|
        invariant count == SumBy(r[..i], LevelsCount) + SumBy(lv[..j], LeavesCount)
      {
        var lf := lv[j].1;
        var k := 0;
        while k < |lf|
          invariant 0 <= k <= |lf|
          invariant count == SumBy(r[..i], LevelsCount) + SumBy(lv[..j], LeavesCount) + SumBy(lf[..k], LeafLen)
        {
          SumByPrefix(lf, LeafLen, k);
          count := count + |lf[k].1|;
          k := k + 1;
        }
        assert lf[..k] == lf;
        SumByPrefix(lv, LeavesCount, j);
        j := j + 1;
      }
      assert lv[..j] == lv;
      SumByPrefix(r, LevelsCount, i);
      i := i + 1;
    }
    assert r[..i] == r;
  }

  /** The counts shown beside the filters; the seniority count is absent
      for the global/all/all view. */
  datatype FilterCounts = FilterCounts(countryCount: int, typeCount: int, seniorityCount: Option<int>)

  function TypeLen(e: string): Leaves -> int {
    (lf: Leaves) => |Get(lf, e).GetOr([])|
  }

  function TypeCount(e: string): Levels -> int {
    (lv: Levels) => SumBy(lv, TypeLen(e))
  }

  function SeniorityCount(s: string): Levels -> int {
    (lv: Levels) => LeavesCount(Get(lv, s).GetOr([]))
  }

  /** `getFilterCounts`. */
  function CountsFor(r: Rules, c: string, s: string, e: string): (fc: FilterCounts)
    ensures c == "global" && s == "all" && e == "all" ==>
      fc.countryCount == TotalCount(r) && fc.typeCount == TotalCount(r) && fc.seniorityCount.None?
    ensures !(c == "global" && s == "all" && e == "all") ==> fc.seniorityCount.Some?
    ensures !HasKey(r, c) && !(c == "global" && s == "all" && e == "all") ==> fc.countryCount == 0
  {
    if c == "global" && s == "all" && e == "all" then
      FilterCounts(TotalCount(r), TotalCount(r), None)
    else
      FilterCounts(LevelsCount(Get(r, c).GetOr([])), SumBy(r, TypeCount(e)), Some(SumBy(r, SeniorityCount(s))))
  }

  lemma LeavesCountNonNegative(lf: Leaves)
    ensures LeavesCount(lf) >= 0
  {
    SumByNonNegative(lf, LeafLen);
  }

  lemma LevelsCountNonNegative(lv: Levels)
    ensures LevelsCount(lv) >= 0
  {
    forall j | 0 <= j < |lv|
      ensures LeavesCount(lv[j].1) >= 0
    {
      LeavesCountNonNegative(lv[j].1);
    }
    SumByNonNegative(lv, LeavesCount);
  }

  lemma CountryCountBounded(r: Rules, c: string)
    ensures 0 <= LevelsCount(Get(r, c).GetOr([])) <= TotalCount(r)
  {
    forall i | 0 <= i < |r|
      ensures 0 <= LevelsCount(r[i].1)
    {
      LevelsCountNonNegative(r[i].1);
    }
    SumByNonNegative(r, LevelsCount);
    LevelsCountNonNegative(Get(r, c).GetOr([]));
    if Get(r, c).Some? {
      SumByAtLeastOne(r, c, LevelsCount);
    }
  }

  lemma TypeCountWithin(lv: Levels, e: string)
    ensures 0 <= TypeCount(e)(lv) <= LevelsCount(lv)
  {
    forall j | 0 <= j < |lv|
      ensures 0 <= TypeLen(e)(lv[j].1) <= LeavesCount(lv[j].1)
    {
      LeavesCountNonNegative(lv[j].1);
      if Get(lv[j].1, e).Some? {
        SumByAtLeastOne(lv[j].1, e, LeafLen);
      }
    }
    SumByMono(lv, TypeLen(e), LeavesCount);
    SumByNonNegative(lv, TypeLen(e));
  }

  lemma TypeCountBounded(r: Rules, e: string)
    ensures 0 <= SumBy(r, TypeCount(e)) <= TotalCount(r)
  {
    forall i | 0 <= i < |r|
      ensures 0 <= TypeCount(e)(r[i].1) <= LevelsCount(r[i].1)
    {
      TypeCountWithin(r[i].1, e);
    }
    SumByMono(r, TypeCount(e), LevelsCount);
    SumByNonNegative(r, TypeCount(e));
  }

  lemma SeniorityCountWithin(lv: Levels, s: string)
    ensures 0 <= SeniorityCount(s)(lv) <= LevelsCount(lv)
  {
    forall j | 0 <= j < |lv|
      ensures LeavesCount(lv[j].1) >= 0
    {
      LeavesCountNonNegative(lv[j].1);
    }
    LeavesCountNonNegative(Get(lv, s).GetOr([]));
    if Get(lv, s).Some? {
      SumByAtLeastOne(lv, s, LeavesCount);
    } else {
      LevelsCountNonNegative(lv);
    }
  }

  lemma SeniorityCountBounded(r: Rules, s: string)
    ensures 0 <= SumBy(r, SeniorityCount(s)) <= TotalCount(r)
  {
    forall i | 0 <= i < |r|
      ensures 0 <= SeniorityCount(s)(r[i].1) <= LevelsCount(r[i].1)
    {
      SeniorityCountWithin(r[i].1, s);
    }
    SumByMono(r, SeniorityCount(s), LevelsCount);
    SumByNonNegative(r, SeniorityCount(s));
  }

  /** Each count shown beside a filter is at most the total number of rules. */
  lemma CountsBounded(r: Rules, c: string, s: string, e: string)
    ensures 0 <= CountsFor(r, c, s, e).countryCount <= TotalCount(r)
    ensures 0 <= CountsFor(r, c, s, e).typeCount <= TotalCount(r)
    ensures CountsFor(r, c, s, e).seniorityCount.Some? ==> 0 <= CountsFor(r, c, s, e).seniorityCount.value <= TotalCount(r)
  {
    CountryCountBounded(r, c);
    TypeCountBounded(r, e);
    SeniorityCountBounded(r, s);
  }

  // ---- the counts against the flattened rules ----

  function OfCountry(c: string): TaggedRule -> bool {
    (t: TaggedRule) => t.country == c
  }

  function OfSeniority(s: string): TaggedRule -> bool {
    (t: TaggedRule) => t.seniority == s
  }

  function OfType(e: string): TaggedRule -> bool {
    (t: TaggedRule) => t.expenseType == e
  }

  /** Filtering the pieces of a walk over a map, piece by piece. */
  lemma {:induction false} FilterGather<K, V, R>(m: seq<(K, V)>, f: (K, V) -> seq<R>, p: R -> bool, g: V -> int)
    requires forall i :: 0 <= i < |m| ==> |Filter(f(m[i].0, m[i].1), p)| == g(m[i].1)
    ensures |Filter(Gather(m, f), p)| == SumBy(m, g)
  {
    if m != [] {
      var n := |m| - 1;
      assert forall i :: 0 <= i < n ==> m[..n][i] == m[i];
      FilterGather(m[..n], f, p, g);
      FilterAppend(Gather(m[..n], f), f(m[n].0, m[n].1), p);
      SumByPrefix(m, g, n);
      assert m[..n + 1] == m;
    }
  }

  /** As `FilterGather`, when only the piece of one key passes the filter. */
  lemma {:induction false} FilterGatherOneKey<K, V, R>(m: seq<(K, V)>, f: (K, V) -> seq<R>, p: R -> bool, k: K, g: V -> int)
    requires DistinctKeys(m)
    requires forall i :: 0 <= i < |m| ==> |Filter(f(m[i].0, m[i].1), p)| == (if m[i].0 == k then g(m[i].1) else 0)
    ensures |Filter(Gather(m, f), p)| == (if Get(m, k).Some? then g(Get(m, k).value) else 0)
  {
    if m != [] {
      var n := |m| - 1;
      assert m == m[..n] + [m[n]];
      DistinctSnoc(m[..n], m[n]);
      assert forall i :: 0 <= i < n ==> m[..n][i] == m[i];
      FilterGatherOneKey(m[..n], f, p, k, g);
      FilterAppend(Gather(m[..n], f), f(m[n].0, m[n].1), p);
      GetAppend(m[..n], [m[n]], k);
    }
  }

  /** A leaf's tagged rules all pass a filter on their keys, or none do. */
  lemma TagCount(rs: seq<string>, c: string, s: string, e: string, p: TaggedRule -> bool)
    ensures (forall i :: 0 <= i < |rs| ==> p(TaggedRule(rs[i], c, s, e))) ==> |Filter(Tag(rs, c, s, e), p)| == |rs|
    ensures (forall i :: 0 <= i < |rs| ==> !p(TaggedRule(rs[i], c, s, e))) ==> |Filter(Tag(rs, c, s, e), p)| == 0
  {
    if forall i :: 0 <= i < |rs| ==> p(TaggedRule(rs[i], c, s, e)) {
      FilterAll(Tag(rs, c, s, e), p);
    }
    if forall i :: 0 <= i < |rs| ==> !p(TaggedRule(rs[i], c, s, e)) {
      FilterNone(Tag(rs, c, s, e), p);
    }
  }

  /** The country count is the number of flattened rules of that country. */
  lemma CountryCountIsFlatten(r: Rules, country: string)
    requires WellFormed(r)
    ensures LevelsCount(Get(r, country).GetOr([])) == Count(Flatten(r), OfCountry(country))
  {
    forall i | 0 <= i < |r|
      ensures |Filter(LevelsUnder()(r[i].0, r[i].1), OfCountry(country))| ==
        (if r[i].0 == country then LevelsCount(r[i].1) else 0)
    {
      var c, lv := r[i].0, r[i].1;
      var g := if c == country then LeavesCount else (lf: Leaves) => 0;
      forall j | 0 <= j < |lv|
        ensures |Filter(LeavesUnder(c)(lv[j].0, lv[j].1), OfCountry(country))| == g(lv[j].1)
      {
        var s, lf := lv[j].0, lv[j].1;
        var h := if c == country then LeafLen else (rs: seq<string>) => 0;
        forall k | 0 <= k < |lf|
          ensures |Filter(TagUnder(c, s)(lf[k].0, lf[k].1), OfCountry(country))| == h(lf[k].1)
        {
          TagCount(lf[k].1, c, s, lf[k].0, OfCountry(country));
        }
        FilterGather(lf, TagUnder(c, s), OfCountry(country), h);
        if c != country {
          SumByZero(lf);
        }
      }
      FilterGather(lv, LeavesUnder(c), OfCountry(country), g);
      if c != country {
        SumByZero(lv);
      }
    }
    FilterGatherOneKey(r, LevelsUnder(), OfCountry(country), country, LevelsCount);
  }

  /** The seniority count is the number of flattened rules of that seniority. */
  lemma SeniorityCountIsFlatten(r: Rules, seniority: string)
    requires WellFormed(r)
    ensures SumBy(r, SeniorityCount(seniority)) == Count(Flatten(r), OfSeniority(seniority))
  {
    forall i | 0 <= i < |r|
      ensures |Filter(LevelsUnder()(r[i].0, r[i].1), OfSeniority(seniority))| == SeniorityCount(seniority)(r[i].1)
    {
      var c, lv := r[i].0, r[i].1;
      forall j | 0 <= j < |lv|
        ensures |Filter(LeavesUnder(c)(lv[j].0, lv[j].1), OfSeniority(seniority))| ==
          (if lv[j].0 == seniority then LeavesCount(lv[j].1) else 0)
      {
        var s, lf := lv[j].0, lv[j].1;
        var h := if s == seniority then LeafLen else (rs: seq<string>) => 0;
        forall k | 0 <= k < |lf|
          ensures |Filter(TagUnder(c, s)(lf[k].0, lf[k].1), OfSeniority(seniority))| == h(lf[k].1)
        {
          TagCount(lf[k].1, c, s, lf[k].0, OfSeniority(seniority));
        }
        FilterGather(lf, TagUnder(c, s), OfSeniority(seniority), h);
        if s != seniority {
          SumByZero(lf);
        }
      }
      FilterGatherOneKey(lv, LeavesUnder(c), OfSeniority(seniority), seniority, LeavesCount);
    }
    FilterGather(r, LevelsUnder(), OfSeniority(seniority), SeniorityCount(seniority));
  }

  /** The type count is the number of flattened rules of that expense type. */
  lemma TypeCountIsFlatten(r: Rules, expenseType: string)
    requires WellFormed(r)
    ensures SumBy(r, TypeCount(expenseType)) == Count(Flatten(r), OfType(expenseType))
  {
    forall i | 0 <= i < |r|
      ensures |Filter(LevelsUnder()(r[i].0, r[i].1), OfType(expenseType))| == TypeCount(expenseType)(r[i].1)
    {
      var c, lv := r[i].0, r[i].1;
      forall j | 0 <= j < |lv|
        ensures |Filter(LeavesUnder(c)(lv[j].0, lv[j].1), OfType(expenseType))| == TypeLen(expenseType)(lv[j].1)
      {
        var s, lf := lv[j].0, lv[j].1;
        forall k | 0 <= k < |lf|
          ensures |Filter(TagUnder(c, s)(lf[k].0, lf[k].1), OfType(expenseType))| ==
            (if lf[k].0 == expenseType then LeafLen(lf[k].1) else 0)
        {
          TagCount(lf[k].1, c, s, lf[k].0, OfType(expenseType));
        }
        FilterGatherOneKey(lf, TagUnder(c, s), OfType(expenseType), expenseType, LeafLen);
      }
      FilterGather(lv, LeavesUnder(c), OfType(expenseType), TypeLen(expenseType));
    }
    FilterGather(r, LevelsUnder(), OfType(expenseType), TypeCount(expenseType));
  }

  /** The counts beside the filters, against the flat tagged list the
      compliance check receives: in the global/all/all view both are the
      number of rules; otherwise they are the numbers of rules of the
      selected country, of the selected expense type (any country and
      seniority) and of the selected seniority (any country and type). */
  lemma CountsAreFlattenCounts(r: Rules, c: string, s: string, e: string)
    requires WellFormed(r)
    ensures var fc := CountsFor(r, c, s, e);
      if c == "global" && s == "all" && e == "all" then
        fc.countryCount == |Flatten(r)| && fc.typeCount == |Flatten(r)| && fc.seniorityCount.None?
      else
        fc.countryCount == Count(Flatten(r), OfCountry(c)) &&
        fc.typeCount == Count(Flatten(r), OfType(e)) &&
        fc.seniorityCount == Some(Count(Flatten(r), OfSeniority(s)))
  {
    FlattenCount(r);
    CountryCountIsFlatten(r, c);
    TypeCountIsFlatten(r, e);
    SeniorityCountIsFlatten(r, s);
  }

  datatype EditorState = EditorState(
    rules: Rules,
    selectedCountry: string,
    selectedSeniority: string,
    selectedExpenseType: string,
    newRule: string,
    draggedItemIndex: Option<nat>,
    activeTab: nat)

  /** The page's state: the working copy of the rules and the filter,
      input and drag state around it. */
  class RuleEditor {
    var rules: Rules
    var selectedCountry: string
    var selectedSeniority: string
    var selectedExpenseType: string
    var newRule: string
    var draggedItemIndex: Option<nat>
    var activeTab: nat

    function State(): EditorState
      reads this
    {
      EditorState(rules, selectedCountry, selectedSeniority, selectedExpenseType, newRule, draggedItemIndex, activeTab)
    }

    predicate Valid()
      reads this
    {
      WellFormed(rules)
    }

    /** The page as mounted: the loaded rules and the global/all/all view.
        A saved number or boolean, which the page keeps, has no property the
        page reads and spreads to `{}`, so it acts as the empty store; a
        saved string or irregular object starts empty here as well. */
    constructor(stored: Stored)
      ensures Valid()
      ensures LoadRules(stored).Some? ==>
        State() == EditorState(LoadRules(stored).value, "global", "all", "all", "", None, 0)
      ensures LoadRules(stored).None? ==> State() == EditorState([], "global", "all", "all", "", None, 0)
      ensures stored.Scalar? ==> rules == [] && TotalCount(rules) == 0
    {
      rules := LoadRules(stored).GetOr([]);
      selectedCountry := "global";
      selectedSeniority := "all";
      selectedExpenseType := "all";
      newRule := "";
      draggedItemIndex := None;
      activeTab := 0;
    }

    function Current(): seq<string>
      reads this
    {
      CurrentRules(rules, selectedCountry, selectedSeniority, selectedExpenseType)
    }

    method Select(c: string, s: string, e: string)
      modifies this
      ensures State() == old(State()).(selectedCountry := c, selectedSeniority := s, selectedExpenseType := e)
    {
      selectedCountry, selectedSeniority, selectedExpenseType := c, s, e;
    }

    method TypeNewRule(text: string)
      modifies this
      ensures State() == old(State()).(newRule := text)
    {
      newRule := text;
    }

    /** `handleAddRule`: blank input is ignored; otherwise the trimmed text
        goes last in the selected leaf and the input is cleared. */
    method AddRule()
      requires Valid()
      modifies this
      ensures Valid()
      ensures Trim(old(newRule)) == "" ==> State() == old(State())
      ensures Trim(old(newRule)) != "" ==>
        State() == old(State()).(rules := AddOne(old(rules), selectedCountry, selectedSeniority, selectedExpenseType, Trim(old(newRule))), newRule := "")
    {
      var text := Trim(newRule);
      if text != "" {
        rules := AddOne(rules, selectedCountry, selectedSeniority, selectedExpenseType, text);
        newRule := "";
      }
    }

    /** `handleAddPolicyRules`: every approved rule pushed under its keys;
        back to the manual tab, and a single rule also becomes the view. */
    method AddPolicyRules(ns: seq<NewRule>)
      requires Valid()
      modifies this
      ensures Valid()
      ensures |ns| != 1 ==> State() == old(State()).(rules := AddAll(old(rules), ns), activeTab := 0)
      ensures |ns| == 1 ==> State() == old(State()).(rules := AddAll(old(rules), ns), activeTab := 0,
                                                     selectedCountry := KeyOf(ns[0].country),
                                                     selectedExpenseType := KeyOf(ns[0].expenseType),
                                                     selectedSeniority := KeyOf(ns[0].seniority))
    {
      rules := AddAllLoop(rules, ns);
      activeTab := 0;
      if |ns| == 1 {
        selectedCountry := KeyOf(ns[0].country);
        selectedExpenseType := KeyOf(ns[0].expenseType);
        selectedSeniority := KeyOf(ns[0].seniority);
      }
    }

    /** `handleDeleteRule`: the element at `index` leaves the selected leaf;
        nothing happens when the leaf is missing. */
    method DeleteRule(index: nat)
      requires Valid()
      modifies this
      ensures Valid()
      ensures old(RulesAt(rules, selectedCountry, selectedSeniority, selectedExpenseType)).None? ==> State() == old(State())
      ensures old(RulesAt(rules, selectedCountry, selectedSeniority, selectedExpenseType)).Some? ==>
        var l := old(Current());
        State() == old(State()).(rules := SetRules(old(rules), selectedCountry, selectedSeniority, selectedExpenseType,
                                                   if index < |l| then RemoveAt(l, index) else l))
    {
      if RulesAt(rules, selectedCountry, selectedSeniority, selectedExpenseType).Some? {
        var l := Current();
        var kept := if index < |l| then RemoveAt(l, index) else l;
        SetRulesWellFormed(rules, selectedCountry, selectedSeniority, selectedExpenseType, kept);
        rules := SetRules(rules, selectedCountry, selectedSeniority, selectedExpenseType, kept);
      }
    }

    /** `handleEditRule`: the element at `index` of the selected leaf becomes `value`. */
    method EditRule(index: nat, value: string)
      requires Valid()
      requires RulesAt(rules, selectedCountry, selectedSeniority, selectedExpenseType).Some? ==> index < |Current()|
      modifies this
      ensures Valid()
      ensures old(RulesAt(rules, selectedCountry, selectedSeniority, selectedExpenseType)).None? ==> State() == old(State())
      ensures old(RulesAt(rules, selectedCountry, selectedSeniority, selectedExpenseType)).Some? ==>
        State() == old(State()).(rules := SetRules(old(rules), selectedCountry, selectedSeniority, selectedExpenseType,
                                                   old(Current())[index := value]))
    {
      if RulesAt(rules, selectedCountry, selectedSeniority, selectedExpenseType).Some? {
        var l := Current()[index := value];
        SetRulesWellFormed(rules, selectedCountry, selectedSeniority, selectedExpenseType, l);
        rules := SetRules(rules, selectedCountry, selectedSeniority, selectedExpenseType, l);
      }
    }

    method DragStart(index: nat)
      modifies this
      ensures State() == old(State()).(draggedItemIndex := Some(index))
    {
      draggedItemIndex := Some(index);
    }

    method DragEnd()
      modifies this
      ensures State() == old(State()).(draggedItemIndex := None)
    {
      draggedItemIndex := None;
    }

    /** `handleDragOver`: the dragged rule moves to `index` in the selected
        leaf, which the drag then follows. */
    method DragOver(index: nat)
      requires Valid()
      requires draggedItemIndex.Some? && RulesAt(rules, selectedCountry, selectedSeniority, selectedExpenseType).Some?
      requires draggedItemIndex.value < |Current()| && index < |Current()|
      modifies this
      ensures Valid()
      ensures old(draggedItemIndex) == Some(index) ==> State() == old(State())
      ensures old(draggedItemIndex) != Some(index) ==>
        State() == old(State()).(rules := SetRules(old(rules), selectedCountry, selectedSeniority, selectedExpenseType,
                                                   Moved(old(Current()), old(draggedItemIndex.value), index)),
                                 draggedItemIndex := Some(index))
    {
      if draggedItemIndex == Some(index) {
        return;
      }
      var l := Moved(Current(), draggedItemIndex.value, index);
      SetRulesWellFormed(rules, selectedCountry, selectedSeniority, selectedExpenseType, l);
      rules := SetRules(rules, selectedCountry, selectedSeniority, selectedExpenseType, l);
      draggedItemIndex := Some(index);
    }

    /** `getTotalRuleCount`. */
    method GetTotalRuleCount() returns (count: int)
      ensures count == TotalCount(rules)
    {
      count := CountRules(rules);
    }
  }
}
