/** The saved policy rules: a three-level object country -> seniority ->
    expense type -> list of rule texts, kept in browser storage as JSON, and
    the flat list of tagged rules the compliance check receives. */
module RuleStore {
  import opened Basics
  import opened Assoc

  /** One rule with the three keys it was filed under. */
  datatype TaggedRule = TaggedRule(rule: string, country: string, seniority: string, expenseType: string)

  /** A parsed JSON value below the top level of the saved rules: an array of
      strings or an object. */
  datatype Node = Leaf(rules: seq<string>) | Branch(children: seq<(string, Node)>)

  /** What reading the storage key gives: nothing, text that is not JSON, or
      a parsed top-level value. */
  datatype Stored =
    | Absent
    | Malformed
    | Null
    | Scalar
    | FlatList(items: seq<string>)
    | Object(fields: seq<(string, Node)>)

  type Leaves = seq<(string, seq<string>)>
  type Levels = seq<(string, Leaves)>
  type Rules = seq<(string, Levels)>

  predicate LevelsWellFormed(lv: Levels) {
    DistinctKeys(lv) && forall j :: 0 <= j < |lv| ==> DistinctKeys(lv[j].1)
  }

  /** Keys are distinct at every level, as in any JavaScript object. */
  predicate WellFormed(r: Rules) {
    DistinctKeys(r) && forall i :: 0 <= i < |r| ==> LevelsWellFormed(r[i].1)
  }

  /** `rules[c][s][e]`, or `None` when a level is missing. */
  function RulesAt(r: Rules, c: string, s: string, e: string): Option<seq<string>> {
    match Get(r, c)
    case None => None
    case Some(lv) =>
      match Get(lv, s)
      case None => None
      case Some(lf) => Get(lf, e)
  }

  /** `rules[c][s][e] = xs`, creating the missing levels. */
  function SetRules(r: Rules, c: string, s: string, e: string, xs: seq<string>): (r': Rules)
    ensures RulesAt(r', c, s, e) == Some(xs)
  {
    var lv := Get(r, c).GetOr([]);
    var lf := Get(lv, s).GetOr([]);
    Put(r, c, Put(lv, s, Put(lf, e, xs)))
  }

  /** The single-leaf structure `{c: {s: {e: xs}}}`. */
  function Nest(c: string, s: string, e: string, xs: seq<string>): (r: Rules)
    ensures WellFormed(r) && RulesAt(r, c, s, e) == Some(xs)
    ensures TotalCount(r) == |xs|
  {
    var lf := [(e, xs)];
    var lv := [(s, lf)];
    assert LeavesCount(lf) == |xs| + SumBy(lf[1..], LeafLen);
    assert LevelsCount(lv) == LeavesCount(lf) + SumBy(lv[1..], LeavesCount);
    assert TotalCount([(c, lv)]) == LevelsCount(lv) + SumBy([(c, lv)][1..], LevelsCount);
    [(c, lv)]
  }

  /** Writing one leaf leaves every other leaf as it was. */
  lemma SetRulesOther(r: Rules, c: string, s: string, e: string, xs: seq<string>, c': string, s': string, e': string)
    requires (c', s', e') != (c, s, e)
    ensures RulesAt(SetRules(r, c, s, e, xs), c', s', e') == RulesAt(r, c', s', e')
  {
    var lv := Get(r, c).GetOr([]);
    var lf := Get(lv, s).GetOr([]);
    if c' != c {
      GetPutOther(r, c, Put(lv, s, Put(lf, e, xs)), c');
    } else if s' != s {
      GetPutOther(lv, s, Put(lf, e, xs), s');
    } else {
      GetPutOther(lf, e, xs, e');
    }
  }

  lemma SetRulesWellFormed(r: Rules, c: string, s: string, e: string, xs: seq<string>)
    requires WellFormed(r)
    ensures WellFormed(SetRules(r, c, s, e, xs))
  {
    var lv := Get(r, c).GetOr([]);
    var lf := Get(lv, s).GetOr([]);
    if Get(r, c).Some? {
      GetIn(r, c);
    }
    assert LevelsWellFormed(lv);
    if Get(lv, s).Some? {
      GetIn(lv, s);
    }
    assert DistinctKeys(lf);
    PutKeepsDistinct(lf, e, xs);
    var lf' := Put(lf, e, xs);
    var lv' := Put(lv, s, lf');
    PutKeepsDistinct(lv, s, lf');
    PutEntries(lv, s, lf');
    assert LevelsWellFormed(lv');
    PutKeepsDistinct(r, c, lv');
    PutEntries(r, c, lv');
  }

  function LeafLen(xs: seq<string>): int {
    |xs|
  }

  function LeavesCount(lf: Leaves): int {
    SumBy(lf, LeafLen)
  }

  function LevelsCount(lv: Levels): int {
    SumBy(lv, LeavesCount)
  }

  /** The number of rule texts over all leaves. */
  function TotalCount(r: Rules): int {
    SumBy(r, LevelsCount)
  }

  /** Writing a leaf changes the total by the difference of the leaf lengths. */
  lemma SetRulesCount(r: Rules, c: string, s: string, e: string, xs: seq<string>)
    requires WellFormed(r)
    ensures TotalCount(SetRules(r, c, s, e, xs)) == TotalCount(r) - |RulesAt(r, c, s, e).GetOr([])| + |xs|
  {
    var lv := Get(r, c).GetOr([]);
    var lf := Get(lv, s).GetOr([]);
    if Get(r, c).Some? {
      GetIn(r, c);
    }
    if Get(lv, s).Some? {
      GetIn(lv, s);
    }
    SumByPut(lf, e, xs, LeafLen);
    var lf' := Put(lf, e, xs);
    SumByPut(lv, s, lf', LeavesCount);
    SumByPut(r, c, Put(lv, s, lf'), LevelsCount);
  }

  /** The tagged entries of one leaf, in list order. */
  function Tag(rs: seq<string>, c: string, s: string, e: string): (t: seq<TaggedRule>)
    ensures |t| == |rs| && forall i :: 0 <= i < |rs| ==> t[i] == TaggedRule(rs[i], c, s, e)
  {
    seq(|rs|, i requires 0 <= i < |rs| => TaggedRule(rs[i], c, s, e))
  }

  function TagUnder(c: string, s: string): (string, seq<string>) -> seq<TaggedRule> {
    (e: string, rs: seq<string>) => Tag(rs, c, s, e)
  }

  function FlattenLeaves(c: string, s: string, lf: Leaves): seq<TaggedRule> {
    Gather(lf, TagUnder(c, s))
  }

  function LeavesUnder(c: string): (string, Leaves) -> seq<TaggedRule> {
    (s: string, lf: Leaves) => FlattenLeaves(c, s, lf)
  }

  function FlattenLevels(c: string, lv: Levels): seq<TaggedRule> {
    Gather(lv, LeavesUnder(c))
  }

  function LevelsUnder(): (string, Levels) -> seq<TaggedRule> {
    (c: string, lv: Levels) => FlattenLevels(c, lv)
  }

  /** Every rule tagged with its keys, in key-iteration order. */
  function Flatten(r: Rules): seq<TaggedRule> {
    Gather(r, LevelsUnder())
  }

  lemma FlattenLevelsCount(c: string, lv: Levels)
    ensures |FlattenLevels(c, lv)| == LevelsCount(lv)
  {
    forall j | 0 <= j < |lv|
      ensures |LeavesUnder(c)(lv[j].0, lv[j].1)| == LeavesCount(lv[j].1)
    {
      GatherLength(lv[j].1, TagUnder(c, lv[j].0), LeafLen);
    }
    GatherLength(lv, LeavesUnder(c), LeavesCount);
  }

  /** Flattening yields exactly as many entries as there are rule texts. */
  lemma FlattenCount(r: Rules)
    ensures |Flatten(r)| == TotalCount(r)
  {
    forall i | 0 <= i < |r|
      ensures |LevelsUnder()(r[i].0, r[i].1)| == LevelsCount(r[i].1)
    {
      FlattenLevelsCount(r[i].0, r[i].1);
    }
    GatherLength(r, LevelsUnder(), LevelsCount);
  }

  function ToLeaf(n: Node): Option<seq<string>> {
    match n
    case Leaf(rs) => Some(rs)
    case Branch(_) => None
  }

  function ToLeaves(n: Node): Option<Leaves> {
    match n
    case Branch(k) => MapValuesOpt(k, ToLeaf)
    case Leaf(_) => None
  }

  function ToLevels(n: Node): Option<Levels> {
    match n
    case Branch(k) => MapValuesOpt(k, ToLeaves)
    case Leaf(_) => None
  }

  /** A parsed object read as a three-level rule store: objects at the first
      two levels and arrays at the third, or `None` for any other shape. */
  function ToRules(fields: seq<(string, Node)>): Option<Rules> {
    MapValuesOpt(fields, ToLevels)
  }
}
