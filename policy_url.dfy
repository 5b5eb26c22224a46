/** The policy-from-URL page: the URL checks before the extraction request,
    the extracted policies with their selection (a set of list positions),
    deletion, editing and approval into the rule store. */
module PolicyUrl {
  import opened Basics
  import opened Seqs
  import opened Text
  import opened UrlNormalize
  import opened Policies
  import opened PolicySettings

  /** The request `handleExtractPolicies` sends, or the message it shows
      instead. `valid` stands for the browser's URL parser. */
  function ExtractRequest(url: string, valid: string -> bool): Result<string> {
    if Trim(url) == "" then Err("Please enter a valid URL")
    else if !valid(NormalizeURL(url)) then Err("Please enter a valid URL format (e.g., https://example.com)")
    else Ok(NormalizeURL(url))
  }

  /** A blank URL and one the parser rejects after normalisation get their
      own messages; an accepted request carries the normalised URL, which
      has a scheme and which the parser accepts. */
  lemma ExtractRequestCases(url: string, valid: string -> bool)
    ensures Trim(url) == "" ==> ExtractRequest(url, valid) == Err("Please enter a valid URL")
    ensures Trim(url) != "" && !valid(NormalizeURL(url)) ==>
      ExtractRequest(url, valid) == Err("Please enter a valid URL format (e.g., https://example.com)")
    ensures ExtractRequest(url, valid).Ok? ==>
      Trim(url) != "" && ExtractRequest(url, valid).value == NormalizeURL(url) &&
      HasScheme(ExtractRequest(url, valid).value) && valid(ExtractRequest(url, valid).value)
  {
  }

  /** `x || d` on an optional string: a missing or empty value gives `d`. */
  function OrDefault(x: Option<string>, d: string): (r: string)
    ensures d != "" ==> r != ""
  {
    if x.None? || x.value == "" then d else x.value
  }

  /** The rule an approved URL policy becomes: its keys default to
      'global', 'other' and 'all'. */
  function UrlRule(p: Policy): NewRule {
    NewRule(p.text, Some(OrDefault(p.country, "global")), Some(OrDefault(p.expenseType, "other")), Some(OrDefault(p.seniority, "all")))
  }

  /** Every position of a list of `n` policies, in order. */
  function Range(n: nat): (r: seq<nat>)
    ensures |r| == n && forall i :: 0 <= i < n ==> r[i] == i
  {
    seq(n, i requires 0 <= i < n => i)
  }

  /** The selection is a set of positions of listed policies, in insertion order. */
  predicate SelectionValid(sel: seq<nat>, n: nat) {
    NoDup(sel) && forall i :: 0 <= i < |sel| ==> sel[i] < n
  }

  /** `handlePolicySelection`: the position leaves the set, or joins it at the end. */
  function Toggle(sel: seq<nat>, index: nat): (r: seq<nat>)
    requires NoDup(sel)
    ensures NoDup(r)
    ensures index in r <==> index !in sel
    ensures forall i :: i != index ==> (i in r <==> i in sel)
    ensures |r| == if index in sel then |sel| - 1 else |sel| + 1
  {
    if index in sel then
      var r := Filter(sel, (i: nat) => i != index);
      assert forall i :: i != index && i in sel ==> i in r by {
        forall i | i != index && i in sel
          ensures i in r
        {
          var k :| 0 <= k < |sel| && sel[k] == i;
        }
      }
      FilterNoDup(sel, (i: nat) => i != index);
      FilterDropsOne(sel, index);
      r
    else sel + [index]
  }

  lemma {:induction false} FilterNoDup(s: seq<nat>, p: nat -> bool)
    requires NoDup(s)
    ensures NoDup(Filter(s, p))
  {
    if s != [] {
      FilterNoDup(s[1..], p);
      if p(s[0]) {
        var t := Filter(s[1..], p);
        forall k | 0 <= k < |t|
          ensures t[k] != s[0]
        {
          var j :| 0 <= j < |s[1..]| && s[1..][j] == t[k];
          assert s[1..][j] == s[j + 1];
        }
      }
    }
  }

  /** Dropping one value from a sequence without duplicates that holds it
      shortens the sequence by one. */
  lemma {:induction false} FilterDropsOne(s: seq<nat>, x: nat)
    requires NoDup(s) && x in s
    ensures |Filter(s, (i: nat) => i != x)| == |s| - 1
  {
    if s[0] == x {
      FilterAll(s[1..], (i: nat) => i != x);
    } else {
      FilterDropsOne(s[1..], x);
    }
  }

  /** The positions a selection holds, as a set. */
  function Members(s: seq<nat>): (r: set<nat>)
    ensures forall x :: x in r <==> x in s
  {
    set x | x in s
  }
  /** The distinct positions below `n` number `n` exactly when all of them are there. */
  lemma FullSelection(sel: seq<nat>, n: nat)
    requires SelectionValid(sel, n)
    ensures |sel| == n <==> forall i :: 0 <= i < n ==> i in sel
  {
    var s := Members(sel);
    var all := Members(Range(n));
    DistinctCard(sel);
    DistinctCard(Range(n));
    assert s <= all by {
      forall i | i in s
        ensures i in all
      {
        var k :| 0 <= k < |sel| && sel[k] == i;
        assert Range(n)[i] == i;
      }
    }
    if |sel| == n {
      if all - s != {} {
        var x :| x in all - s;
        assert all == (all - {x}) + {x};
        SubsetCard(s, all - {x});
        assert false;
      }
      forall i | 0 <= i < n
        ensures i in sel
      {
        assert Range(n)[i] == i;
        assert i !in all - s;
      }
    }
    if forall i :: 0 <= i < n ==> i in sel {
      forall i | i in all
        ensures i in s
      {
        var k :| 0 <= k < n && Range(n)[k] == i;
      }
      assert s == all;
    }
  }

  lemma SubsetCard(a: set<nat>, b: set<nat>)
    requires a <= b
    ensures |a| <= |b|
  {
    assert b == a + (b - a);
  }

  lemma {:induction false} DistinctCard(sel: seq<nat>)
    requires NoDup(sel)
    ensures |Members(sel)| == |sel|
  {
    if sel == [] {
      assert Members(sel) == {};
    } else {
      var n := |sel| - 1;
      var p := sel[..n];
      assert NoDup(p) by {
        assert forall i :: 0 <= i < n ==> p[i] == sel[i];
      }
      DistinctCard(p);
      assert sel[n] !in p by {
        forall k | 0 <= k < n
          ensures p[k] != sel[n]
        {
          assert p[k] == sel[k];
        }
      }
      assert sel == p + [sel[n]];
      assert Members(sel) == Members(p) + {sel[n]};
    }
  }

  /** `handleDeletePolicy`'s new set: positions before the deleted one kept,
      later ones moved down by one, the deleted one dropped. */
  function ShiftDown(sel: seq<nat>, index: nat): seq<nat> {
    if sel == [] then []
    else
      var n := |sel| - 1;
      ShiftDown(sel[..n], index) +
        (if sel[n] < index then [sel[n]] else if sel[n] > index then [sel[n] - 1] else [])
  }

  /** Where a selected position other than the deleted one moves. */
  function Shift(j: nat, index: nat): nat
    requires j != index
  {
    if j < index then j else j - 1
  }

  /** Each selected position other than the deleted one follows its policy. */
  lemma {:induction false} ShiftDownKeeps(sel: seq<nat>, index: nat)
    ensures forall j :: j in sel && j != index ==> Shift(j, index) in ShiftDown(sel, index)
  {
    if sel != [] {
      var n := |sel| - 1;
      var p := sel[..n];
      ShiftDownKeeps(p, index);
      assert sel == p + [sel[n]];
    }
  }

  /** Every position in the new set comes from a selected one: the same
      position below the deleted one, the next one above it. */
  lemma {:induction false} ShiftDownMembers(sel: seq<nat>, index: nat)
    ensures forall i :: i in ShiftDown(sel, index) && i < index ==> i in sel
    ensures forall i :: i in ShiftDown(sel, index) && i >= index ==> i + 1 in sel
  {
    if sel != [] {
      var n := |sel| - 1;
      var p := sel[..n];
      ShiftDownMembers(p, index);
      assert sel == p + [sel[n]];
    }
  }

  lemma NoDupSnoc(s: seq<nat>, x: nat)
    requires NoDup(s) && x !in s
    ensures NoDup(s + [x])
  {
    var r := s + [x];
    forall i, j | 0 <= i < j < |r|
      ensures r[i] != r[j]
    {
      assert r[i] == s[i];
      if j < |s| {
        assert r[j] == s[j];
      }
    }
  }

  lemma {:induction false} ShiftDownNoDup(sel: seq<nat>, index: nat)
    requires NoDup(sel)
    ensures NoDup(ShiftDown(sel, index))
  {
    if sel != [] {
      var m := |sel| - 1;
      var p := sel[..m];
      assert NoDup(p) by {
        assert forall i :: 0 <= i < m ==> p[i] == sel[i];
      }
      assert sel[m] !in p by {
        forall k | 0 <= k < m
          ensures p[k] != sel[m]
        {
          assert p[k] == sel[k];
        }
      }
      ShiftDownNoDup(p, index);
      ShiftDownMembers(p, index);
      var a := ShiftDown(p, index);
      if sel[m] < index {
        NoDupSnoc(a, sel[m]);
      } else if sel[m] > index {
        NoDupSnoc(a, sel[m] - 1);
      } else {
        assert ShiftDown(sel, index) == a;
      }
    }
  }

  /** After a deletion the selection is again a set of listed positions. */
  lemma ShiftDownValid(sel: seq<nat>, index: nat, n: nat)
    requires SelectionValid(sel, n)
    ensures SelectionValid(ShiftDown(sel, index), if index < n then n - 1 else n)
  {
    ShiftDownNoDup(sel, index);
    ShiftDownMembers(sel, index);
    var r := ShiftDown(sel, index);
    forall k | 0 <= k < |r|
      ensures r[k] < if index < n then n - 1 else n
    {
      var i := r[k];
      assert i in r;
      if i < index {
        var j :| 0 <= j < |sel| && sel[j] == i;
      } else {
        var j :| 0 <= j < |sel| && sel[j] == i + 1;
      }
    }
  }

  /** The loop of `handleDeletePolicy` over the old set. */
  method ShiftSelection(sel: seq<nat>, index: nat) returns (r: seq<nat>)
    ensures r == ShiftDown(sel, index)
  {
    r := [];
    var i := 0;
    while i < |sel|
      invariant 0 <= i <= |sel|
      invariant r == ShiftDown(sel[..i], index)
    {
      assert sel[..i + 1][..i] == sel[..i];
      if sel[i] < index {
        r := r + [sel[i]];
      } else if sel[i] > index {
        r := r + [sel[i] - 1];
      }
      i := i + 1;
    }
    assert sel[..i] == sel;
  }

  /** The selected policies marked approved. */
  function MarkApproved(ps: seq<Policy>, sel: seq<nat>): (r: seq<Policy>)
    ensures |r| == |ps|
    ensures forall i :: 0 <= i < |ps| ==> r[i] == ps[i].(approved := ps[i].approved || i in sel)
  {
    seq(|ps|, i requires 0 <= i < |ps| => ps[i].(approved := ps[i].approved || i in sel))
  }

  /** The approval loop of `handleApproveSelected`. */
  method MarkLoop(ps: seq<Policy>, sel: seq<nat>) returns (r: seq<Policy>)
    ensures r == MarkApproved(ps, sel)
  {
    r := ps;
    var k := 0;
    while k < |sel|
      invariant 0 <= k <= |sel| && |r| == |ps|
      invariant forall i :: 0 <= i < |ps| ==> r[i] == ps[i].(approved := ps[i].approved || i in sel[..k])
    {
      assert sel[..k + 1] == sel[..k] + [sel[k]];
      if sel[k] < |r| {
        r := r[sel[k] := r[sel[k]].(approved := true)];
      }
      k := k + 1;
    }
    assert sel[..k] == sel;
  }

  /** The rules of the selected policies, in selection order, skipping
      positions that name no policy. */
  function UrlRules(ps: seq<Policy>, sel: seq<nat>): seq<NewRule> {
    if sel == [] then []
    else
      var n := |sel| - 1;
      UrlRules(ps, sel[..n]) + (if sel[n] < |ps| then [UrlRule(ps[sel[n]])] else [])
  }

  /** With a valid selection every selected policy yields its rule, and
      every rule carries all three keys. */
  lemma {:induction false} UrlRulesExact(ps: seq<Policy>, sel: seq<nat>)
    requires forall i :: 0 <= i < |sel| ==> sel[i] < |ps|
    ensures |UrlRules(ps, sel)| == |sel|
    ensures forall k :: 0 <= k < |sel| ==> UrlRules(ps, sel)[k] == UrlRule(ps[sel[k]])
    ensures forall k :: 0 <= k < |sel| ==>
      UrlRules(ps, sel)[k].country.Some? && UrlRules(ps, sel)[k].country.value != "" &&
      UrlRules(ps, sel)[k].expenseType.Some? && UrlRules(ps, sel)[k].expenseType.value != "" &&
      UrlRules(ps, sel)[k].seniority.Some? && UrlRules(ps, sel)[k].seniority.value != ""
  {
    var rules := UrlRules(ps, sel);
    if sel != [] {
      var n := |sel| - 1;
      UrlRulesExact(ps, sel[..n]);
      var pre := UrlRules(ps, sel[..n]);
      assert rules == pre + [UrlRule(ps[sel[n]])];
      forall k | 0 <= k < n
        ensures rules[k] == UrlRule(ps[sel[k]])
      {
        assert sel[..n][k] == sel[k];
      }
    }
    forall k | 0 <= k < |sel|
      ensures rules[k].country.Some? && rules[k].country.value != "" &&
        rules[k].expenseType.Some? && rules[k].expenseType.value != "" &&
        rules[k].seniority.Some? && rules[k].seniority.value != ""
    {
      UrlRuleComplete(ps[sel[k]]);
    }
  }

  /** A rule built from a policy carries all three keys, none of them empty. */
  lemma UrlRuleComplete(p: Policy)
    ensures UrlRule(p).country.Some? && UrlRule(p).country.value != ""
    ensures UrlRule(p).expenseType.Some? && UrlRule(p).expenseType.value != ""
    ensures UrlRule(p).seniority.Some? && UrlRule(p).seniority.value != ""
  {
  }

  method RulesLoop(ps: seq<Policy>, sel: seq<nat>) returns (rules: seq<NewRule>)
    ensures rules == UrlRules(ps, sel)
  {
    rules := [];
    var k := 0;
    while k < |sel|
      invariant 0 <= k <= |sel|
      invariant rules == UrlRules(ps, sel[..k])
    {
      assert sel[..k + 1][..k] == sel[..k];
      if sel[k] < |ps| {
        rules := rules + [UrlRule(ps[sel[k]])];
      }
      k := k + 1;
    }
    assert sel[..k] == sel;
  }

  /** `getConfidenceColor`, confidence in hundredths. */
  function ConfidenceColor(confidence: int): string {
    if confidence >= 90 then "success" else if confidence >= 80 then "warning" else "error"
  }

  /** `getConfidenceLabel`, confidence in hundredths. */
  function ConfidenceLabel(confidence: int): string {
    if confidence >= 90 then "High" else if confidence >= 80 then "Medium" else "Low"
  }

  function LabelRank(band: string): nat {
    if band == "High" then 2 else if band == "Medium" then 1 else 0
  }

  /** The chip's colour and label always tell the same band, and a higher
      confidence never gets a lower label. */
  lemma ConfidenceBands(c: int, c': int)
    ensures ConfidenceLabel(c) == "High" <==> ConfidenceColor(c) == "success"
    ensures ConfidenceLabel(c) == "Medium" <==> ConfidenceColor(c) == "warning"
    ensures ConfidenceLabel(c) == "Low" <==> ConfidenceColor(c) == "error"
    ensures c <= c' ==> LabelRank(ConfidenceLabel(c)) <= LabelRank(ConfidenceLabel(c'))
  {
  }

  datatype UrlState = UrlState(
    url: string,
    policies: seq<Policy>,
    selection: seq<nat>,
    selectAllChecked: bool,
    error: string,
    successMessage: string)

  /** The page after `handleExtractPolicies`, with `valid` for the URL
      parser and `outcome` for the service's answer: policies, or the
      message of the failure. */
  function AfterExtract(st: UrlState, request: Result<string>, outcome: Result<seq<Policy>>): UrlState {
    match request
    case Err(m) => st.(error := m)
    case Ok(_) =>
      match outcome
      case Ok(ps) =>
        if ps != [] then
          st.(policies := ps, selection := Range(|ps|), selectAllChecked := true, error := "",
              successMessage := "Successfully extracted " + NatToString(|ps|) + " policies from the URL")
        else
          st.(policies := [], selection := [], successMessage := "",
              error := "No policies found in the provided URL. The content may not contain expense policy information.")
      case Err(m) =>
        st.(policies := [], selection := [], successMessage := "",
            error := if m == "" then "Failed to extract policies from URL" else m)
  }

  /** A rejected URL changes only the error message, to one of the two
      URL messages. */
  lemma ExtractRejected(st: UrlState, valid: string -> bool, outcome: Result<seq<Policy>>)
    requires ExtractRequest(st.url, valid).Err?
    ensures var r := AfterExtract(st, ExtractRequest(st.url, valid), outcome);
      r == st.(error := r.error) &&
      (r.error == "Please enter a valid URL" || r.error == "Please enter a valid URL format (e.g., https://example.com)")
  {
  }

  /** An extraction that finds policies lists them all, every one selected,
      with the select-all box checked and no error. */
  lemma ExtractFound(st: UrlState, request: Result<string>, ps: seq<Policy>)
    requires request.Ok? && ps != []
    ensures var r := AfterExtract(st, request, Ok(ps));
      r.policies == ps && r.selectAllChecked && r.error == "" && r.url == st.url &&
      SelectionValid(r.selection, |ps|) && forall i :: 0 <= i < |ps| ==> i in r.selection
  {
    var n := |ps|;
    forall i | 0 <= i < n
      ensures i in Range(n)
    {
      assert Range(n)[i] == i;
    }
  }

  /** Any other answer leaves an empty list, nothing selected and an error. */
  lemma ExtractFailed(st: UrlState, request: Result<string>, outcome: Result<seq<Policy>>)
    requires request.Ok? && !(outcome.Ok? && outcome.value != [])
    ensures var r := AfterExtract(st, request, outcome);
      r.policies == [] && r.selection == [] && r.successMessage == "" && r.url == st.url
  {
    match outcome
    case Ok(ps) =>
      assert ps == [];
    case Err(m) =>
  }

  class UrlPanel {
    var url: string
    var policies: seq<Policy>
    var selection: seq<nat>
    var selectAllChecked: bool
    var error: string
    var successMessage: string

    function State(): UrlState
      reads this
    {
      UrlState(url, policies, selection, selectAllChecked, error, successMessage)
    }

    predicate Valid()
      reads this
    {
      SelectionValid(selection, |policies|)
    }

    constructor()
      ensures Valid()
      ensures State() == UrlState("", [], [], false, "", "")
    {
      url := "";
      policies := [];
      selection := [];
      selectAllChecked := false;
      error := "";
      successMessage := "";
    }

    method TypeUrl(text: string)
      modifies this
      ensures State() == old(State()).(url := text)
    {
      url := text;
    }

    /** `handleExtractPolicies`, with `valid` for the browser's URL parser
        and `outcome` for the extraction service's answer. */
    method ExtractPolicies(valid: string -> bool, outcome: Result<seq<Policy>>)
      requires Valid()
      modifies this
      ensures Valid()
      ensures State() == AfterExtract(old(State()), ExtractRequest(old(url), valid), outcome)
    {
      var request := ExtractRequest(url, valid);
      ApplyExtraction(request, outcome);
    }

    /** The state updates of `handleExtractPolicies` once the request is known. */
    method ApplyExtraction(request: Result<string>, outcome: Result<seq<Policy>>)
      requires Valid()
      modifies this
      ensures Valid()
      ensures State() == AfterExtract(old(State()), request, outcome)
    {
      if request.Err? {
        error := request.message;
        return;
      }
      error := "";
      successMessage := "";
      policies := [];
      selection := [];
      match outcome {
        case Ok(ps) =>
          if ps != [] {
            policies := ps;
            successMessage := "Successfully extracted " + NatToString(|ps|) + " policies from the URL";
            selection := Range(|ps|);
            selectAllChecked := true;
            ExtractFound(old(State()), request, ps);
          } else {
            error := "No policies found in the provided URL. The content may not contain expense policy information.";
          }
        case Err(m) =>
          error := if m == "" then "Failed to extract policies from URL" else m;
      }
    }

    /** `handlePolicySelection` on a listed policy: afterwards the select-all
        box is checked exactly when every policy is selected. */
    method PolicySelection(index: nat)
      requires Valid() && index < |policies|
      modifies this
      ensures Valid()
      ensures State() == old(State()).(selection := Toggle(old(selection), index),
                                       selectAllChecked := |Toggle(old(selection), index)| == |old(policies)|)
      ensures selectAllChecked <==> forall i :: 0 <= i < |policies| ==> i in selection
    {
      selection := Toggle(selection, index);
      selectAllChecked := |selection| == |policies|;
      FullSelection(selection, |policies|);
    }

    /** `handleSelectAll`. */
    method SelectAll(checked: bool)
      requires Valid()
      modifies this
      ensures Valid()
      ensures State() == old(State()).(selection := if checked then Range(|old(policies)|) else [], selectAllChecked := checked)
    {
      selection := if checked then Range(|policies|) else [];
      selectAllChecked := checked;
    }

    /** `handleSaveEdit` for the dialog opened on a listed policy. */
    method SaveEdit(index: nat, policy: Policy)
      requires Valid() && index < |policies|
      modifies this
      ensures Valid()
      ensures State() == old(State()).(policies := old(policies)[index := policy], successMessage := "Policy updated successfully")
    {
      policies := policies[index := policy];
      successMessage := "Policy updated successfully";
    }

    /** `handleDeletePolicy`: the select-all box ends up checked exactly
        when every remaining policy is selected. */
    method DeletePolicy(index: nat)
      requires Valid()
      modifies this
      ensures Valid()
      ensures State() == old(State()).(policies := if index < |old(policies)| then RemoveAt(old(policies), index) else old(policies),
                                       selection := ShiftDown(old(selection), index),
                                       selectAllChecked := |ShiftDown(old(selection), index)| == |policies|,
                                       successMessage := "Policy deleted successfully")
      ensures selectAllChecked <==> forall i :: 0 <= i < |policies| ==> i in selection
    {
      ShiftDownValid(selection, index, |policies|);
      selection := ShiftSelection(selection, index);
      policies := if index < |policies| then RemoveAt(policies, index) else policies;
      selectAllChecked := |selection| == |policies|;
      successMessage := "Policy deleted successfully";
      FullSelection(selection, |policies|);
    }

    /** `handleApproveSelected`: with nothing selected, an error; otherwise
        the selected policies are marked approved and their rules returned
        for the rule editor, one per selected policy, and the selection is
        cleared. */
    method ApproveSelected() returns (added: seq<NewRule>)
      requires Valid()
      modifies this
      ensures Valid()
      ensures old(selection) == [] ==> added == [] && State() == old(State()).(error := "Please select at least one policy to approve.")
      ensures old(selection) != [] ==>
        |added| == |old(selection)| &&
        (forall k :: 0 <= k < |added| ==> added[k] == UrlRule(old(policies)[old(selection)[k]])) &&
        State() == old(State()).(policies := MarkApproved(old(policies), old(selection)), selection := [], selectAllChecked := false,
          successMessage := "Successfully approved " + NatToString(|added|) + " policies and added them to Policy Management")
    {
      if selection == [] {
        error := "Please select at least one policy to approve.";
        return [];
      }
      var marked := MarkLoop(policies, selection);
      added := RulesLoop(policies, selection);
      UrlRulesExact(policies, selection);
      policies := marked;
      successMessage := "Successfully approved " + NatToString(|added|) + " policies and added them to Policy Management";
      selection := [];
      selectAllChecked := false;
    }
  }
}
