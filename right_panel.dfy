/** The expense view's `getPolicyRules`: the saved rule structure flattened
    into tagged rules for the compliance check, with the legacy flat list,
    the legacy two-level object and the built-in defaults. The value read
    from storage is a parameter. */
module RightPanel {
  import opened Basics
  import opened Assoc
  import opened RuleStore

  /** The eight built-in rules of the expense view. */
  const DefaultRules: seq<string> := [
    "Total amount should not exceed 200 in any currency",
    "Each individual item amount should not exceed 100 in any currency",
    "Quantity for each item should be greater than 0",
    "Maximum number of items allowed is 10",
    "The expense date should not be in the future",
    "Invoice must have a valid invoice number",
    "Vendor name must be provided",
    "No alchohol items in the receipt"
  ]

  function DefaultTagged(): (t: seq<TaggedRule>)
    ensures |t| == 8
    ensures forall i :: 0 <= i < |t| ==> t[i].country == "global" && t[i].seniority == "all" && t[i].expenseType == "all"
  {
    Tag(DefaultRules, "global", "all", "all")
  }

  predicate HasText(rs: seq<string>) {
    exists i :: 0 <= i < |rs| && rs[i] != ""
  }

  // The three-level walk as written. An array met where an object is
  // expected is walked by its indices; each non-empty string in it then
  // reaches `forEach`, which strings do not have, and the TypeError aborts
  // the whole walk (`None`). An object met where an array is expected
  // fails the same way.

  function TypeStep(c: string, s: string): (string, Node) -> Option<seq<TaggedRule>> {
    (e: string, v: Node) =>
      match v
      case Leaf(rs) => Some(Tag(rs, c, s, e))
      case Branch(_) => None
  }

  function LevelStep(c: string): (string, Node) -> Option<seq<TaggedRule>> {
    (s: string, v: Node) =>
      match v
      case Branch(k) => Collect(k, TypeStep(c, s))
      case Leaf(rs) => if HasText(rs) then None else Some([])
  }

  function CountryStep(): (string, Node) -> Option<seq<TaggedRule>> {
    (c: string, v: Node) =>
      match v
      case Branch(k) => Collect(k, LevelStep(c))
      case Leaf(rs) => if HasText(rs) then None else Some([])
  }

  /** The country -> seniority -> expense type walk; `None` when it throws. */
  function ThreeLevel(fields: seq<(string, Node)>): Option<seq<TaggedRule>> {
    Collect(fields, CountryStep())
  }

  function TwoStep(c: string): (string, Node) -> seq<TaggedRule> {
    (e: string, v: Node) =>
      match v
      case Leaf(rs) => Tag(rs, c, "all", e)
      case Branch(_) => []
  }

  function CountryTwo(): (string, Node) -> seq<TaggedRule> {
    (c: string, v: Node) =>
      match v
      case Branch(k) => Gather(k, TwoStep(c))
      case Leaf(_) => []
  }

  /** The backwards-compatible country -> expense type walk: array values
      are tagged with seniority 'all', anything else is skipped. */
  function TwoLevel(fields: seq<(string, Node)>): seq<TaggedRule> {
    Gather(fields, CountryTwo())
  }

  /** The rules the compliance check receives, as written. */
  function PolicyRules(stored: Stored): (r: seq<TaggedRule>)
    ensures |r| > 0
    ensures stored.Absent? || stored.Malformed? || stored.Null? || stored.Scalar? ==> r == DefaultTagged()
    ensures stored.FlatList? && stored.items == [] ==> r == DefaultTagged()
    ensures stored.Object? && ThreeLevel(stored.fields).None? ==> r == DefaultTagged()
  {
    match stored
    case FlatList(xs) => if xs != [] then Tag(xs, "global", "all", "all") else DefaultTagged()
    case Object(fields) =>
      (match ThreeLevel(fields)
       case None => DefaultTagged()
       case Some(found) =>
         if found != [] then found
         else
           var two := TwoLevel(fields);
           if two != [] then two else DefaultTagged())
    case _ => DefaultTagged()
  }

  /** A legacy flat array yields one entry per rule, tagged global/all/all. */
  lemma FlatListTagged(xs: seq<string>)
    requires xs != []
    ensures |PolicyRules(FlatList(xs))| == |xs|
    ensures forall i :: 0 <= i < |xs| ==> PolicyRules(FlatList(xs))[i] == TaggedRule(xs[i], "global", "all", "all")
  {
  }

  lemma TypesWalk(c: string, s: string, k: seq<(string, Node)>, lf: Leaves)
    requires MapValuesOpt(k, ToLeaf) == Some(lf)
    ensures Collect(k, TypeStep(c, s)) == Some(FlattenLeaves(c, s, lf))
  {
    CollectIsGather(k, TypeStep(c, s), lf, TagUnder(c, s));
  }

  lemma LevelsWalk(c: string, k: seq<(string, Node)>, lv: Levels)
    requires MapValuesOpt(k, ToLeaves) == Some(lv)
    ensures Collect(k, LevelStep(c)) == Some(FlattenLevels(c, lv))
  {
    forall j | 0 <= j < |k|
      ensures LevelStep(c)(k[j].0, k[j].1) == Some(LeavesUnder(c)(lv[j].0, lv[j].1))
    {
      TypesWalk(c, k[j].0, k[j].1.children, lv[j].1);
    }
    CollectIsGather(k, LevelStep(c), lv, LeavesUnder(c));
  }

  /** On a well-shaped three-level object the walk does not throw and yields
      every rule with its three keys, in key order. */
  lemma ThreeLevelIsFlatten(fields: seq<(string, Node)>, r: Rules)
    requires ToRules(fields) == Some(r)
    ensures ThreeLevel(fields) == Some(Flatten(r))
  {
    forall i | 0 <= i < |fields|
      ensures CountryStep()(fields[i].0, fields[i].1) == Some(LevelsUnder()(r[i].0, r[i].1))
    {
      LevelsWalk(fields[i].0, fields[i].1.children, r[i].1);
    }
    CollectIsGather(fields, CountryStep(), r, LevelsUnder());
  }

  /** A three-level object with at least one rule yields one entry per leaf
      rule, so the entry count equals the total rule count. */
  lemma ThreeLevelCount(fields: seq<(string, Node)>, r: Rules)
    requires ToRules(fields) == Some(r) && TotalCount(r) > 0
    ensures PolicyRules(Object(fields)) == Flatten(r)
    ensures |PolicyRules(Object(fields))| == TotalCount(r)
  {
    ThreeLevelIsFlatten(fields, r);
    FlattenCount(r);
  }

  /** A three-level object with no rule at all falls through to the
      two-level walk, which finds nothing in it either: the defaults. */
  lemma EmptyThreeLevelGivesDefaults(fields: seq<(string, Node)>, r: Rules)
    requires ToRules(fields) == Some(r) && TotalCount(r) == 0
    ensures PolicyRules(Object(fields)) == DefaultTagged()
  {
    ThreeLevelIsFlatten(fields, r);
    FlattenCount(r);
    forall i | 0 <= i < |fields|
      ensures |CountryTwo()(fields[i].0, fields[i].1)| == 0
    {
      var k := fields[i].1.children;
      forall j | 0 <= j < |k|
        ensures |TwoStep(fields[i].0)(k[j].0, k[j].1)| == 0
      {
        assert k[j].1.Branch?;
      }
      GatherLength(k, TwoStep(fields[i].0), (v: Node) => 0);
      SumByZero(k);
    }
    GatherLength(fields, CountryTwo(), (v: Node) => 0);
    SumByZero(fields);
  }

  /** The shape of the legacy two-level object: country -> expense type ->
      array of rules. */
  predicate TwoLevelShape(fields: seq<(string, Node)>) {
    forall i :: 0 <= i < |fields| ==>
      fields[i].1.Branch? && forall j :: 0 <= j < |fields[i].1.children| ==> fields[i].1.children[j].1.Leaf?
  }

  /** As written, a legacy two-level object that holds any non-empty rule
      never reaches the two-level walk: the three-level walk treats its
      arrays as objects, calls `forEach` on a rule string and throws, and the
      built-in defaults replace the saved rules. */
  lemma TwoLevelLostAsWritten(fields: seq<(string, Node)>, i: nat, j: nat, n: nat)
    requires TwoLevelShape(fields)
    requires i < |fields| && j < |fields[i].1.children|
    requires n < |fields[i].1.children[j].1.rules| && fields[i].1.children[j].1.rules[n] != ""
    ensures PolicyRules(Object(fields)) == DefaultTagged()
  {
    var c := fields[i].0;
    var k := fields[i].1.children;
    assert k[j].1.Leaf? && k[j].1.rules[n] != "";
    assert HasText(k[j].1.rules);
    assert LevelStep(c)(k[j].0, k[j].1).None?;
    CollectPrefix(k, LevelStep(c), j);
    CollectFailed(k, LevelStep(c), j + 1);
    CollectPrefix(fields, CountryStep(), i);
    CollectFailed(fields, CountryStep(), i + 1);
  }

  /** A concrete instance: one rule saved in the two-level layout is
      replaced by the eight defaults. */
  lemma TwoLevelExample()
    ensures PolicyRules(Object([("global", Branch([("meals", Leaf(["Receipts are required"]))]))])) == DefaultTagged()
  {
    var fields := [("global", Branch([("meals", Leaf(["Receipts are required"]))]))];
    TwoLevelLostAsWritten(fields, 0, 0, 0);
  }

  // The corrected walk descends only into objects and only collects arrays
  // at the third level, skipping every other value instead of throwing.

  function TypeStepFixed(c: string, s: string): (string, Node) -> Option<seq<TaggedRule>> {
    (e: string, v: Node) =>
      match v
      case Leaf(rs) => Some(Tag(rs, c, s, e))
      case Branch(_) => Some([])
  }

  function LevelStepFixed(c: string): (string, Node) -> Option<seq<TaggedRule>> {
    (s: string, v: Node) =>
      match v
      case Branch(k) => Collect(k, TypeStepFixed(c, s))
      case Leaf(_) => Some([])
  }

  function CountryStepFixed(): (string, Node) -> Option<seq<TaggedRule>> {
    (c: string, v: Node) =>
      match v
      case Branch(k) => Collect(k, LevelStepFixed(c))
      case Leaf(_) => Some([])
  }

  /** `getPolicyRules` with the three-level walk skipping values of the wrong kind. */
  function PolicyRulesFixed(stored: Stored): (r: seq<TaggedRule>)
    ensures |r| > 0
  {
    match stored
    case FlatList(xs) => if xs != [] then Tag(xs, "global", "all", "all") else DefaultTagged()
    case Object(fields) =>
      var found := Collect(fields, CountryStepFixed()).GetOr([]);
      if found != [] then found
      else
        var two := TwoLevel(fields);
        if two != [] then two else DefaultTagged()
    case _ => DefaultTagged()
  }

  /** Corrected, a legacy two-level object with at least one rule yields its
      rules tagged with seniority 'all'. */
  lemma TwoLevelKeptFixed(fields: seq<(string, Node)>)
    requires TwoLevelShape(fields) && TwoLevel(fields) != []
    ensures PolicyRulesFixed(Object(fields)) == TwoLevel(fields)
  {
    forall i | 0 <= i < |fields|
      ensures CountryStepFixed()(fields[i].0, fields[i].1) == Some([])
    {
      var k := fields[i].1.children;
      CollectAllEmpty(k, LevelStepFixed(fields[i].0));
    }
    CollectAllEmpty(fields, CountryStepFixed());
  }

  /** Corrected, a well-shaped three-level object still yields every rule
      with its keys. */
  lemma ThreeLevelKeptFixed(fields: seq<(string, Node)>, r: Rules)
    requires ToRules(fields) == Some(r) && TotalCount(r) > 0
    ensures PolicyRulesFixed(Object(fields)) == Flatten(r)
  {
    forall i | 0 <= i < |fields|
      ensures CountryStepFixed()(fields[i].0, fields[i].1) == Some(LevelsUnder()(r[i].0, r[i].1))
    {
      var c := fields[i].0;
      var k := fields[i].1.children;
      var lv := r[i].1;
      forall j | 0 <= j < |k|
        ensures LevelStepFixed(c)(k[j].0, k[j].1) == Some(LeavesUnder(c)(lv[j].0, lv[j].1))
      {
        CollectIsGather(k[j].1.children, TypeStepFixed(c, k[j].0), lv[j].1, TagUnder(c, k[j].0));
      }
      CollectIsGather(k, LevelStepFixed(c), lv, LeavesUnder(c));
    }
    CollectIsGather(fields, CountryStepFixed(), r, LevelsUnder());
    FlattenCount(r);
  }

  // The walk as the handler runs it: nested loops that push into one list
  // and give up on the first TypeError.

  method WalkTypes(c: string, s: string, k: seq<(string, Node)>) returns (ok: bool, found: seq<TaggedRule>)
    ensures ok <==> Collect(k, TypeStep(c, s)).Some?
    ensures ok ==> found == Collect(k, TypeStep(c, s)).value
  {
    found := [];
    var i := 0;
    while i < |k|
      invariant 0 <= i <= |k|
      invariant Collect(k[..i], TypeStep(c, s)) == Some(found)
    {
      CollectPrefix(k, TypeStep(c, s), i);
      match k[i].1 {
        case Leaf(rs) =>
          found := found + Tag(rs, c, s, k[i].0);
        case Branch(_) =>
          CollectFailed(k, TypeStep(c, s), i + 1);
          return false, [];
      }
      i := i + 1;
    }
    assert k[..i] == k;
    ok := true;
  }

  method WalkLevels(c: string, k: seq<(string, Node)>) returns (ok: bool, found: seq<TaggedRule>)
    ensures ok <==> Collect(k, LevelStep(c)).Some?
    ensures ok ==> found == Collect(k, LevelStep(c)).value
  {
    found := [];
    var i := 0;
    while i < |k|
      invariant 0 <= i <= |k|
      invariant Collect(k[..i], LevelStep(c)) == Some(found)
    {
      CollectPrefix(k, LevelStep(c), i);
      var more := [];
      match k[i].1 {
        case Branch(kids) =>
          var fine;
          fine, more := WalkTypes(c, k[i].0, kids);
          if !fine {
            CollectFailed(k, LevelStep(c), i + 1);
            return false, [];
          }
        case Leaf(rs) =>
          if HasText(rs) {
            CollectFailed(k, LevelStep(c), i + 1);
            return false, [];
          }
      }
      found := found + more;
      i := i + 1;
    }
    assert k[..i] == k;
    ok := true;
  }

  method WalkCountries(fields: seq<(string, Node)>) returns (ok: bool, found: seq<TaggedRule>)
    ensures ok <==> ThreeLevel(fields).Some?
    ensures ok ==> found == ThreeLevel(fields).value
  {
    found := [];
    var i := 0;
    while i < |fields|
      invariant 0 <= i <= |fields|
      invariant Collect(fields[..i], CountryStep()) == Some(found)
    {
      CollectPrefix(fields, CountryStep(), i);
      var more := [];
      match fields[i].1 {
        case Branch(kids) =>
          var fine;
          fine, more := WalkLevels(fields[i].0, kids);
          if !fine {
            CollectFailed(fields, CountryStep(), i + 1);
            return false, [];
          }
        case Leaf(rs) =>
          if HasText(rs) {
            CollectFailed(fields, CountryStep(), i + 1);
            return false, [];
          }
      }
      found := found + more;
      i := i + 1;
    }
    assert fields[..i] == fields;
    ok := true;
  }

  method WalkTwoLevels(fields: seq<(string, Node)>) returns (found: seq<TaggedRule>)
    ensures found == TwoLevel(fields)
  {
    found := [];
    var i := 0;
    while i < |fields|
      invariant 0 <= i <= |fields|
      invariant found == Gather(fields[..i], CountryTwo())
    {
      GatherPrefix(fields, CountryTwo(), i);
      var c := fields[i].0;
      match fields[i].1 {
        case Branch(kids) =>
          var j := 0;
          var more := [];
          while j < |kids|
            invariant 0 <= j <= |kids|
            invariant more == Gather(kids[..j], TwoStep(c))
          {
            GatherPrefix(kids, TwoStep(c), j);
            if kids[j].1.Leaf? {
              more := more + Tag(kids[j].1.rules, c, "all", kids[j].0);
            }
            j := j + 1;
          }
          assert kids[..j] == kids;
          found := found + more;
        case Leaf(_) =>
      }
      i := i + 1;
    }
    assert fields[..i] == fields;
  }

  /** `getPolicyRules`, with the storage read passed in. */
  method GetPolicyRules(stored: Stored) returns (rules: seq<TaggedRule>)
    ensures rules == PolicyRules(stored)
  {
    match stored
    case FlatList(xs) =>
      rules := if xs != [] then Tag(xs, "global", "all", "all") else DefaultTagged();
    case Object(fields) =>
      var ok, found := WalkCountries(fields);
      if !ok {
        return DefaultTagged();
      }
      if found == [] {
        found := WalkTwoLevels(fields);
      }
      rules := if found != [] then found else DefaultTagged();
    case _ =>
      rules := DefaultTagged();
  }
}
