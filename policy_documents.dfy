/** The policy document upload page: PDF files queued for extraction, the
    documents the extraction service returned, and the selection of extracted
    policies to approve into the rule store. */
module PolicyDocuments {
  import opened Basics
  import opened Seqs
  import opened Text
  import opened Assoc
  import opened Policies
  import opened PolicySettings

  /** A file picked in the browser. */
  datatype UploadFile = UploadFile(name: string, mimeType: string)

  /** What the extraction service returned for one file. */
  datatype Extraction = Extraction(policies: seq<Policy>, pageCount: nat)

  datatype Document = Document(fileName: string, policies: seq<Policy>, pageCount: nat)

  /** The selection key `${documentIndex}-${policyId}`. */
  datatype SelKey = SelKey(doc: nat, policyId: string)

  /** The selection object: keys in insertion order, each with its checkbox value. */
  type Selection = seq<(SelKey, bool)>

  predicate IsPdf(f: UploadFile) {
    f.mimeType == "application/pdf"
  }

  /** Every selection key is unique and names an existing document. */
  predicate SelectionValid(sel: Selection, n: nat) {
    DistinctKeys(sel) && forall i :: 0 <= i < |sel| ==> sel[i].0.doc < n
  }

  /** `filter((_, i) => i !== index)`. */
  function WithoutIndex<T>(s: seq<T>, index: nat): (r: seq<T>)
    ensures index < |s| ==> |r| == |s| - 1
    ensures index >= |s| ==> r == s
  {
    if index < |s| then RemoveAt(s, index) else s
  }

  // Processing the queued files

  /** The documents added for the files whose extraction succeeded, in file order. */
  function Extracted(files: seq<UploadFile>, outcomes: seq<Result<Extraction>>): seq<Document>
    requires |outcomes| == |files|
  {
    if files == [] then []
    else
      var n := |files| - 1;
      Extracted(files[..n], outcomes[..n]) +
        (match outcomes[n]
         case Ok(x) => [Document(files[n].name, x.policies, x.pageCount)]
         case Err(_) => [])
  }

  /** The number of successful extractions. */
  function Succeeded(outcomes: seq<Result<Extraction>>): nat {
    if outcomes == [] then 0
    else Succeeded(outcomes[..|outcomes| - 1]) + (if outcomes[|outcomes| - 1].Ok? then 1 else 0)
  }

  /** The message of the last failed file, which is the one left on screen. */
  function LastError(files: seq<UploadFile>, outcomes: seq<Result<Extraction>>): Option<string>
    requires |outcomes| == |files|
  {
    if files == [] then None
    else
      var n := |files| - 1;
      match outcomes[n]
      case Err(m) => Some("Error processing " + files[n].name + ": " + m)
      case Ok(_) => LastError(files[..n], outcomes[..n])
  }

  /** One document per successful file, and all files succeed exactly when
      the count of successes is the number of files. */
  lemma {:induction false} ExtractedCount(files: seq<UploadFile>, outcomes: seq<Result<Extraction>>)
    requires |outcomes| == |files|
    ensures |Extracted(files, outcomes)| == Succeeded(outcomes) <= |files|
    ensures Succeeded(outcomes) == |files| <==> forall i :: 0 <= i < |outcomes| ==> outcomes[i].Ok?
    ensures LastError(files, outcomes).None? <==> forall i :: 0 <= i < |outcomes| ==> outcomes[i].Ok?
  {
    if files != [] {
      var n := |files| - 1;
      ExtractedCount(files[..n], outcomes[..n]);
      assert forall i :: 0 <= i < n ==> outcomes[..n][i] == outcomes[i];
    }
  }

  /** The loop of `handleProcessFiles` over the queued files. */
  method ExtractAll(files: seq<UploadFile>, outcomes: seq<Result<Extraction>>)
    returns (docs: seq<Document>, processed: nat, lastError: Option<string>)
    requires |outcomes| == |files|
    ensures docs == Extracted(files, outcomes)
    ensures processed == Succeeded(outcomes)
    ensures lastError == LastError(files, outcomes)
  {
    docs, processed, lastError := [], 0, None;
    var i := 0;
    while i < |files|
      invariant 0 <= i <= |files|
      invariant docs == Extracted(files[..i], outcomes[..i])
      invariant processed == Succeeded(outcomes[..i])
      invariant lastError == LastError(files[..i], outcomes[..i])
    {
      assert files[..i + 1][..i] == files[..i];
      assert outcomes[..i + 1][..i] == outcomes[..i];
      match outcomes[i] {
        case Ok(x) =>
          docs := docs + [Document(files[i].name, x.policies, x.pageCount)];
          processed := processed + 1;
        case Err(m) =>
          lastError := Some("Error processing " + files[i].name + ": " + m);
      }
      i := i + 1;
    }
    assert files[..i] == files;
    assert outcomes[..i] == outcomes;
  }

  /** The success line after processing `total` files of which `processed`
      succeeded; empty when every file failed. */
  function ProcessMessage(total: nat, processed: nat, failed: bool): string {
    if !failed then "All documents processed successfully!"
    else if processed > 0 then "Processed " + NatToString(processed) + " out of " + NatToString(total) + " documents successfully."
    else ""
  }

  // The selection

  function Indicator(b: bool): int {
    if b then 1 else 0
  }

  /** `getSelectedCount`: the number of checked entries. */
  function SelectedCount(sel: Selection): int {
    SumBy(sel, Indicator)
  }

  /** `handleTogglePolicy`: the key's value flipped, an absent key becoming checked. */
  function Toggled(sel: Selection, key: SelKey): (r: Selection)
    ensures Get(r, key) == Some(Get(sel, key) != Some(true))
  {
    Put(sel, key, !(Get(sel, key) == Some(true)))
  }

  /** Toggling changes the count by one and leaves every other key alone. */
  lemma ToggleCount(sel: Selection, key: SelKey, other: SelKey)
    requires DistinctKeys(sel)
    ensures SelectedCount(Toggled(sel, key)) == SelectedCount(sel) + (if Get(sel, key) == Some(true) then -1 else 1)
    ensures other != key ==> Get(Toggled(sel, key), other) == Get(sel, other)
  {
    SumByPut(sel, key, !(Get(sel, key) == Some(true)), Indicator);
    if other != key {
      GetPutOther(sel, key, !(Get(sel, key) == Some(true)), other);
    }
  }

  /** Toggling twice restores the count. */
  lemma ToggleTwice(sel: Selection, key: SelKey)
    requires DistinctKeys(sel)
    ensures SelectedCount(Toggled(Toggled(sel, key), key)) == SelectedCount(sel)
  {
    ToggleCount(sel, key, key);
    PutKeepsDistinct(sel, key, !(Get(sel, key) == Some(true)));
    ToggleCount(Toggled(sel, key), key, key);
  }

  lemma ToggleValid(sel: Selection, key: SelKey, n: nat)
    requires SelectionValid(sel, n) && key.doc < n
    ensures SelectionValid(Toggled(sel, key), n)
  {
    PutKeepsDistinct(sel, key, !(Get(sel, key) == Some(true)));
    PutEntries(sel, key, !(Get(sel, key) == Some(true)));
  }

  /** The checked keys, in insertion order. */
  function SelectedIds(sel: Selection): seq<SelKey> {
    if sel == [] then []
    else
      var n := |sel| - 1;
      SelectedIds(sel[..n]) + (if sel[n].1 then [sel[n].0] else [])
  }

  /** The checked keys are exactly the keys whose value is true, one per
      checked entry. */
  lemma {:induction false} SelectedIdsExact(sel: Selection)
    requires DistinctKeys(sel)
    ensures |SelectedIds(sel)| == SelectedCount(sel)
    ensures forall k :: k in SelectedIds(sel) <==> Get(sel, k) == Some(true)
  {
    if sel != [] {
      var n := |sel| - 1;
      var p := sel[..n];
      assert sel == p + [sel[n]];
      DistinctSnoc(p, sel[n]);
      SelectedIdsExact(p);
      SumByPrefix(sel, Indicator, n);
      assert sel[..n + 1] == sel;
      forall k
        ensures k in SelectedIds(sel) <==> Get(sel, k) == Some(true)
      {
        GetAppend(p, [sel[n]], k);
      }
    }
  }

  lemma SelectedIdsBound(sel: Selection, n: nat)
    requires SelectionValid(sel, n)
    ensures forall i :: 0 <= i < |SelectedIds(sel)| ==> SelectedIds(sel)[i].doc < n
  {
    SelectedIdsExact(sel);
    forall i | 0 <= i < |SelectedIds(sel)|
      ensures SelectedIds(sel)[i].doc < n
    {
      var k := SelectedIds(sel)[i];
      assert k in SelectedIds(sel);
      assert HasKey(sel, k);
    }
  }

  // Removing a document re-keys the selection

  /** The entries of documents before `index`, kept as they are. */
  function Before(sel: Selection, index: nat): Selection {
    if sel == [] then []
    else
      var n := |sel| - 1;
      Before(sel[..n], index) + (if sel[n].0.doc < index then [sel[n]] else [])
  }

  /** The entries of documents after `index`, moved down by one document. */
  function Shifted(sel: Selection, index: nat): Selection {
    if sel == [] then []
    else
      var n := |sel| - 1;
      var e := sel[n];
      Shifted(sel[..n], index) + (if e.0.doc > index then [(SelKey(e.0.doc - 1, e.0.policyId), e.1)] else [])
  }

  /** `{...updatedSelectedPolicies, ...updatedKeys}`: the removed document's
      entries dropped, earlier ones first, then the later ones re-keyed. */
  function Reindex(sel: Selection, index: nat): Selection {
    Before(sel, index) + Shifted(sel, index)
  }

  lemma {:induction false} GetBefore(sel: Selection, index: nat, k: SelKey)
    ensures Get(Before(sel, index), k) == if k.doc < index then Get(sel, k) else None
  {
    if sel != [] {
      var n := |sel| - 1;
      assert sel == sel[..n] + [sel[n]];
      GetBefore(sel[..n], index, k);
      GetAppend(sel[..n], [sel[n]], k);
      GetAppend(Before(sel[..n], index), if sel[n].0.doc < index then [sel[n]] else [], k);
    }
  }

  lemma {:induction false} GetShifted(sel: Selection, index: nat, k: SelKey)
    ensures Get(Shifted(sel, index), k) == if k.doc >= index then Get(sel, SelKey(k.doc + 1, k.policyId)) else None
  {
    if sel != [] {
      var n := |sel| - 1;
      var e := sel[n];
      assert sel == sel[..n] + [e];
      GetShifted(sel[..n], index, k);
      GetAppend(sel[..n], [e], SelKey(k.doc + 1, k.policyId));
      GetAppend(Shifted(sel[..n], index), if e.0.doc > index then [(SelKey(e.0.doc - 1, e.0.policyId), e.1)] else [], k);
    }
  }

  /** After removing document `index`, each entry follows its document: keys
      of earlier documents read as before, keys from `index` on read what the
      next document's key read, and the removed document's entries are gone. */
  lemma ReindexGet(sel: Selection, index: nat, k: SelKey)
    ensures Get(Reindex(sel, index), k) ==
      if k.doc < index then Get(sel, k) else Get(sel, SelKey(k.doc + 1, k.policyId))
  {
    GetAppend(Before(sel, index), Shifted(sel, index), k);
    GetBefore(sel, index, k);
    GetShifted(sel, index, k);
  }

  lemma {:induction false} BeforeDistinct(sel: Selection, index: nat)
    requires DistinctKeys(sel)
    ensures DistinctKeys(Before(sel, index))
  {
    if sel != [] {
      var n := |sel| - 1;
      assert sel == sel[..n] + [sel[n]];
      DistinctSnoc(sel[..n], sel[n]);
      BeforeDistinct(sel[..n], index);
      if sel[n].0.doc < index {
        GetBefore(sel[..n], index, sel[n].0);
        DistinctSnoc(Before(sel[..n], index), sel[n]);
      } else {
        assert Before(sel, index) == Before(sel[..n], index) + [];
      }
    }
  }

  lemma {:induction false} ShiftedDistinct(sel: Selection, index: nat)
    requires DistinctKeys(sel)
    ensures DistinctKeys(Shifted(sel, index))
  {
    if sel != [] {
      var n := |sel| - 1;
      var e := sel[n];
      assert sel == sel[..n] + [e];
      DistinctSnoc(sel[..n], e);
      ShiftedDistinct(sel[..n], index);
      if e.0.doc > index {
        var e' := (SelKey(e.0.doc - 1, e.0.policyId), e.1);
        GetShifted(sel[..n], index, e'.0);
        assert SelKey(e'.0.doc + 1, e'.0.policyId) == e.0;
        DistinctSnoc(Shifted(sel[..n], index), e');
      } else {
        assert Shifted(sel, index) == Shifted(sel[..n], index) + [];
      }
    }
  }

  /** Re-keying keeps the selection valid for the shorter document list. */
  lemma ReindexValid(sel: Selection, index: nat, n: nat)
    requires SelectionValid(sel, n)
    ensures SelectionValid(Reindex(sel, index), if index < n then n - 1 else n)
  {
    var a := Before(sel, index);
    var b := Shifted(sel, index);
    BeforeDistinct(sel, index);
    ShiftedDistinct(sel, index);
    forall k | HasKey(a, k)
      ensures !HasKey(b, k)
    {
      GetBefore(sel, index, k);
      GetShifted(sel, index, k);
    }
    DistinctConcat(a, b);
    var r := Reindex(sel, index);
    forall i | 0 <= i < |r|
      ensures r[i].0.doc < if index < n then n - 1 else n
    {
      var k := r[i].0;
      assert HasKey(r, k);
      ReindexGet(sel, index, k);
      var src := if k.doc < index then k else SelKey(k.doc + 1, k.policyId);
      assert HasKey(sel, src);
    }
  }

  /** The two passes of `handleRemoveDocument` over the selection. */
  method ReindexSelection(sel: Selection, index: nat) returns (r: Selection)
    ensures r == Reindex(sel, index)
  {
    var kept: Selection := [];
    var moved: Selection := [];
    var i := 0;
    while i < |sel|
      invariant 0 <= i <= |sel|
      invariant kept == Before(sel[..i], index)
      invariant moved == Shifted(sel[..i], index)
    {
      assert sel[..i + 1][..i] == sel[..i];
      var e := sel[i];
      if e.0.doc < index {
        kept := kept + [e];
      } else if e.0.doc > index {
        moved := moved + [(SelKey(e.0.doc - 1, e.0.policyId), e.1)];
      }
      i := i + 1;
    }
    assert sel[..i] == sel;
    r := kept + moved;
  }

  // Approval

  /** Two policies that differ at most in their approval flag. */
  predicate SamePolicy(p: Policy, q: Policy) {
    p.(approved := false) == q.(approved := false)
  }

  /** The same documents and policies, approval flags aside. */
  predicate SameButApproval(docs: seq<Document>, docs': seq<Document>) {
    |docs'| == |docs| &&
    forall d :: 0 <= d < |docs| ==>
      docs'[d].fileName == docs[d].fileName && docs'[d].pageCount == docs[d].pageCount &&
      |docs'[d].policies| == |docs[d].policies| &&
      forall j :: 0 <= j < |docs[d].policies| ==> SamePolicy(docs[d].policies[j], docs'[d].policies[j])
  }

  lemma {:induction false} FindPolicySame(ps: seq<Policy>, qs: seq<Policy>, id: string)
    requires |ps| == |qs| && forall j :: 0 <= j < |ps| ==> SamePolicy(ps[j], qs[j])
    ensures FindPolicy(ps, id) == FindPolicy(qs, id)
  {
    if ps != [] {
      assert ps[0].id == qs[0].id by {
        assert ps[0].(approved := false).id == qs[0].(approved := false).id;
      }
      FindPolicySame(ps[1..], qs[1..], id);
    }
  }

  predicate KeysBelow(ids: seq<SelKey>, n: nat) {
    forall i :: 0 <= i < |ids| ==> ids[i].doc < n
  }

  /** The policy a key names is marked approved, when the document has it. */
  function ApproveOne(docs: seq<Document>, k: SelKey): (r: seq<Document>)
    requires k.doc < |docs|
    ensures |r| == |docs|
  {
    var ps := docs[k.doc].policies;
    match FindPolicy(ps, k.policyId)
    case None => docs
    case Some(j) => docs[k.doc := docs[k.doc].(policies := ps[j := ps[j].(approved := true)])]
  }

  /** The marking pass of `handleApproveSelected`, key by key. */
  function ApproveAll(docs: seq<Document>, ids: seq<SelKey>): (r: seq<Document>)
    requires KeysBelow(ids, |docs|)
    ensures |r| == |docs|
  {
    if ids == [] then docs
    else
      var n := |ids| - 1;
      ApproveOne(ApproveAll(docs, ids[..n]), ids[n])
  }

  /** Whether one of the keys names policy `j` of document `d`. */
  predicate Targeted(docs: seq<Document>, ids: seq<SelKey>, d: nat, j: nat)
    requires d < |docs|
  {
    exists i :: 0 <= i < |ids| && ids[i].doc == d && FindPolicy(docs[d].policies, ids[i].policyId) == Some(j)
  }

  lemma ApproveOneEffect(docs: seq<Document>, k: SelKey)
    requires k.doc < |docs|
    ensures SameButApproval(docs, ApproveOne(docs, k))
    ensures forall d, j :: 0 <= d < |docs| && 0 <= j < |docs[d].policies| ==>
      ApproveOne(docs, k)[d].policies[j].approved ==
        (docs[d].policies[j].approved || (k.doc == d && FindPolicy(docs[d].policies, k.policyId) == Some(j)))
  {
  }

  lemma SameTrans(a: seq<Document>, b: seq<Document>, c: seq<Document>)
    requires SameButApproval(a, b) && SameButApproval(b, c)
    ensures SameButApproval(a, c)
  {
  }

  /** A key list with one more key targets what the shorter list did, and what the new key names. */
  lemma TargetedSnoc(docs: seq<Document>, ids: seq<SelKey>, d: nat, j: nat)
    requires ids != [] && d < |docs|
    ensures Targeted(docs, ids, d, j) <==>
      Targeted(docs, ids[..|ids| - 1], d, j) ||
      (ids[|ids| - 1].doc == d && FindPolicy(docs[d].policies, ids[|ids| - 1].policyId) == Some(j))
  {
    var n := |ids| - 1;
    var p := ids[..n];
    if Targeted(docs, ids, d, j) && !Targeted(docs, p, d, j) {
      var i :| 0 <= i < |ids| && ids[i].doc == d && FindPolicy(docs[d].policies, ids[i].policyId) == Some(j);
      assert i == n;
    }
    if Targeted(docs, p, d, j) {
      var i :| 0 <= i < |p| && p[i].doc == d && FindPolicy(docs[d].policies, p[i].policyId) == Some(j);
      assert ids[i] == p[i];
    }
  }

  /** Approving changes approval flags only: a policy ends up approved
      exactly when it was approved already or a selected key names it. */
  lemma {:induction false} ApproveAllEffect(docs: seq<Document>, ids: seq<SelKey>)
    requires KeysBelow(ids, |docs|)
    ensures SameButApproval(docs, ApproveAll(docs, ids))
    ensures forall d, j :: 0 <= d < |docs| && 0 <= j < |docs[d].policies| ==>
      ApproveAll(docs, ids)[d].policies[j].approved == (docs[d].policies[j].approved || Targeted(docs, ids, d, j))
  {
    if ids != [] {
      var n := |ids| - 1;
      var p := ids[..n];
      var mid := ApproveAll(docs, p);
      var last := ApproveOne(mid, ids[n]);
      assert ApproveAll(docs, ids) == last;
      ApproveAllEffect(docs, p);
      ApproveOneEffect(mid, ids[n]);
      SameTrans(docs, mid, last);
      forall d, j | 0 <= d < |docs| && 0 <= j < |docs[d].policies|
        ensures last[d].policies[j].approved == (docs[d].policies[j].approved || Targeted(docs, ids, d, j))
      {
        FindPolicySame(docs[d].policies, mid[d].policies, ids[n].policyId);
        TargetedSnoc(docs, ids, d, j);
      }
    }
  }

  /** The rule handed to the rule editor for an approved policy. */
  function RuleOf(p: Policy): NewRule {
    NewRule(p.text, p.country, p.expenseType, p.seniority)
  }

  /** The rules pass of `handleApproveSelected`: the rule of each named
      policy that exists, in key order. */
  function RulesFor(docs: seq<Document>, ids: seq<SelKey>): seq<NewRule>
    requires KeysBelow(ids, |docs|)
  {
    if ids == [] then []
    else
      var n := |ids| - 1;
      RulesFor(docs, ids[..n]) +
        (match FindPolicy(docs[ids[n].doc].policies, ids[n].policyId)
         case Some(j) => [RuleOf(docs[ids[n].doc].policies[j])]
         case None => [])
  }

  /** At most one rule per key, and flags do not matter to the rules. */
  lemma {:induction false} RulesForSame(docs: seq<Document>, docs': seq<Document>, ids: seq<SelKey>)
    requires KeysBelow(ids, |docs|) && SameButApproval(docs, docs')
    ensures |RulesFor(docs, ids)| <= |ids|
    ensures RulesFor(docs', ids) == RulesFor(docs, ids)
  {
    if ids != [] {
      var n := |ids| - 1;
      var d := ids[n].doc;
      RulesForSame(docs, docs', ids[..n]);
      FindPolicySame(docs[d].policies, docs'[d].policies, ids[n].policyId);
      match FindPolicy(docs[d].policies, ids[n].policyId)
      case None =>
      case Some(j) =>
        assert SamePolicy(docs[d].policies[j], docs'[d].policies[j]);
        assert docs[d].policies[j].(approved := false).text == docs'[d].policies[j].(approved := false).text;
        assert docs[d].policies[j].(approved := false).country == docs'[d].policies[j].(approved := false).country;
        assert docs[d].policies[j].(approved := false).expenseType == docs'[d].policies[j].(approved := false).expenseType;
        assert docs[d].policies[j].(approved := false).seniority == docs'[d].policies[j].(approved := false).seniority;
    }
  }

  method ApproveLoop(docs: seq<Document>, ids: seq<SelKey>) returns (r: seq<Document>)
    requires KeysBelow(ids, |docs|)
    ensures r == ApproveAll(docs, ids)
  {
    r := docs;
    var i := 0;
    while i < |ids|
      invariant 0 <= i <= |ids|
      invariant KeysBelow(ids[..i], |docs|)
      invariant r == ApproveAll(docs, ids[..i])
    {
      assert ids[..i + 1][..i] == ids[..i];
      var k := ids[i];
      var ps := r[k.doc].policies;
      var found := FindPolicy(ps, k.policyId);
      if found.Some? {
        var j := found.value;
        r := r[k.doc := r[k.doc].(policies := ps[j := ps[j].(approved := true)])];
      }
      i := i + 1;
    }
    assert ids[..i] == ids;
  }

  method RulesLoop(docs: seq<Document>, ids: seq<SelKey>) returns (rules: seq<NewRule>)
    requires KeysBelow(ids, |docs|)
    ensures rules == RulesFor(docs, ids)
  {
    rules := [];
    var i := 0;
    while i < |ids|
      invariant 0 <= i <= |ids|
      invariant KeysBelow(ids[..i], |docs|)
      invariant rules == RulesFor(docs, ids[..i])
    {
      assert ids[..i + 1][..i] == ids[..i];
      var k := ids[i];
      var found := FindPolicy(docs[k.doc].policies, k.policyId);
      if found.Some? {
        rules := rules + [RuleOf(docs[k.doc].policies[found.value])];
      }
      i := i + 1;
    }
    assert ids[..i] == ids;
  }

  // Counting and editing policies

  /** `getTotalPolicyCount`. */
  function TotalPolicies(docs: seq<Document>): nat {
    if docs == [] then 0 else |docs[0].policies| + TotalPolicies(docs[1..])
  }

  lemma {:induction false} TotalUpdate(docs: seq<Document>, i: nat, d: Document)
    requires i < |docs|
    ensures TotalPolicies(docs[i := d]) == TotalPolicies(docs) - |docs[i].policies| + |d.policies|
  {
    if i > 0 {
      assert docs[i := d][1..] == docs[1..][i - 1 := d];
      TotalUpdate(docs[1..], i - 1, d);
    } else {
      assert docs[i := d][1..] == docs[1..];
    }
  }

  lemma {:induction false} TotalRemoveAt(docs: seq<Document>, i: nat)
    requires i < |docs|
    ensures TotalPolicies(RemoveAt(docs, i)) == TotalPolicies(docs) - |docs[i].policies|
  {
    if i > 0 {
      assert RemoveAt(docs, i)[1..] == RemoveAt(docs[1..], i - 1);
      TotalRemoveAt(docs[1..], i - 1);
    } else {
      assert RemoveAt(docs, i) == docs[1..];
    }
  }

  /** `handleSaveEdit`: the policy with the edited one's id replaced by it. */
  function SaveEdited(docs: seq<Document>, d: nat, policy: Policy): seq<Document>
    requires d < |docs|
  {
    var ps := docs[d].policies;
    match FindPolicy(ps, policy.id)
    case None => docs
    case Some(j) => docs[d := docs[d].(policies := ps[j := policy])]
  }

  /** Saving an edit keeps every count and every id; afterwards the id
      finds the edited policy. */
  lemma SaveEditedEffect(docs: seq<Document>, d: nat, policy: Policy)
    requires d < |docs|
    ensures |SaveEdited(docs, d, policy)| == |docs|
    ensures TotalPolicies(SaveEdited(docs, d, policy)) == TotalPolicies(docs)
    ensures forall e :: 0 <= e < |docs| && e != d ==> SaveEdited(docs, d, policy)[e] == docs[e]
    ensures FindPolicy(SaveEdited(docs, d, policy)[d].policies, policy.id) == FindPolicy(docs[d].policies, policy.id)
    ensures FindPolicy(docs[d].policies, policy.id).Some? ==>
      SaveEdited(docs, d, policy)[d].policies[FindPolicy(docs[d].policies, policy.id).value] == policy
  {
    var ps := docs[d].policies;
    match FindPolicy(ps, policy.id)
    case None =>
    case Some(j) =>
      TotalUpdate(docs, d, docs[d].(policies := ps[j := policy]));
      var qs := ps[j := policy];
      FindPolicyAfterReplace(ps, j, policy);
  }

  lemma {:induction false} FindPolicyAfterReplace(ps: seq<Policy>, j: nat, policy: Policy)
    requires j < |ps| && ps[j].id == policy.id
    ensures FindPolicy(ps[j := policy], policy.id) == FindPolicy(ps, policy.id)
  {
    if ps != [] && j > 0 {
      assert ps[j := policy][1..] == ps[1..][j - 1 := policy];
      FindPolicyAfterReplace(ps[1..], j - 1, policy);
    }
  }

  function OtherId(id: string): Policy -> bool {
    (p: Policy) => p.id != id
  }

  // The page

  datatype PanelState = PanelState(
    files: seq<UploadFile>,
    documents: seq<Document>,
    selection: Selection,
    errorMessage: string,
    successMessage: string)

  /** `handleRemoveDocument`. */
  function AfterRemoveDocument(st: PanelState, index: nat): PanelState {
    st.(documents := WithoutIndex(st.documents, index), selection := Reindex(st.selection, index))
  }

  /** `handleRemovePolicy`: the policy leaves its document, a document left
      empty is removed, and a checked selection of the policy is dropped. */
  function AfterRemovePolicy(st: PanelState, doc: nat, id: string): PanelState {
    if doc >= |st.documents| then st
    else
      var remaining := Filter(st.documents[doc].policies, OtherId(id));
      if remaining == [] then AfterRemoveDocument(st, doc)
      else
        var key := SelKey(doc, id);
        st.(documents := st.documents[doc := st.documents[doc].(policies := remaining)],
            selection := if Get(st.selection, key) == Some(true) then Remove(st.selection, key) else st.selection)
  }

  /** Removing a policy lowers the total by the number of policies with that
      id in the document; when the document stays, none of them is left in
      it and the policy is no longer checked. */
  lemma RemovePolicyEffect(st: PanelState, doc: nat, id: string)
    requires doc < |st.documents|
    ensures TotalPolicies(AfterRemovePolicy(st, doc, id).documents) ==
      TotalPolicies(st.documents) - (|st.documents[doc].policies| - |Filter(st.documents[doc].policies, OtherId(id))|)
    ensures Filter(st.documents[doc].policies, OtherId(id)) != [] ==>
      |AfterRemovePolicy(st, doc, id).documents| == |st.documents| &&
      (forall j :: 0 <= j < |AfterRemovePolicy(st, doc, id).documents[doc].policies| ==>
        AfterRemovePolicy(st, doc, id).documents[doc].policies[j].id != id) &&
      Get(AfterRemovePolicy(st, doc, id).selection, SelKey(doc, id)) != Some(true)
  {
    var remaining := Filter(st.documents[doc].policies, OtherId(id));
    if remaining == [] {
      TotalRemoveAt(st.documents, doc);
    } else {
      TotalUpdate(st.documents, doc, st.documents[doc].(policies := remaining));
      forall j | 0 <= j < |remaining|
        ensures remaining[j].id != id
      {
        assert OtherId(id)(remaining[j]);
      }
      var key := SelKey(doc, id);
      if Get(st.selection, key) == Some(true) {
        assert !HasKey(Remove(st.selection, key), key);
      }
    }
  }

  lemma AfterRemovePolicyValid(st: PanelState, doc: nat, id: string)
    requires SelectionValid(st.selection, |st.documents|)
    ensures SelectionValid(AfterRemovePolicy(st, doc, id).selection, |AfterRemovePolicy(st, doc, id).documents|)
  {
    if doc < |st.documents| {
      var remaining := Filter(st.documents[doc].policies, OtherId(id));
      if remaining == [] {
        ReindexValid(st.selection, doc, |st.documents|);
      } else {
        var key := SelKey(doc, id);
        if Get(st.selection, key) == Some(true) {
          RemoveKeepsDistinct(st.selection, key);
        }
      }
    }
  }

  /** The page's state: the queued files, the processed documents, the
      selection and the two messages. Dialog and progress flags are not kept. */
  class DocumentPanel {
    var files: seq<UploadFile>
    var documents: seq<Document>
    var selection: Selection
    var errorMessage: string
    var successMessage: string

    function State(): PanelState
      reads this
    {
      PanelState(files, documents, selection, errorMessage, successMessage)
    }

    predicate Valid()
      reads this
    {
      SelectionValid(selection, |documents|)
    }

    constructor()
      ensures Valid()
      ensures State() == PanelState([], [], [], "", "")
    {
      files := [];
      documents := [];
      selection := [];
      errorMessage := "";
      successMessage := "";
    }

    /** `handleFileChange`: only PDF files are queued; none at all is an error. */
    method FileChange(picked: seq<UploadFile>)
      modifies this
      ensures Filter(picked, IsPdf) == [] ==> State() == old(State()).(errorMessage := "Please select PDF files only.")
      ensures Filter(picked, IsPdf) != [] ==> State() == old(State()).(files := old(files) + Filter(picked, IsPdf), errorMessage := "")
    {
      var pdfs := Filter(picked, IsPdf);
      if pdfs == [] {
        errorMessage := "Please select PDF files only.";
      } else {
        files := files + pdfs;
        errorMessage := "";
      }
    }

    /** `handleRemoveFile`. */
    method RemoveFile(index: nat)
      modifies this
      ensures State() == old(State()).(files := WithoutIndex(old(files), index))
    {
      files := WithoutIndex(files, index);
    }

    /** `handleProcessFiles`, with the service's answer for each queued file
        given as `outcomes`: the successes become documents, the queue is
        emptied, and the messages report the result. */
    method ProcessFiles(outcomes: seq<Result<Extraction>>)
      requires Valid() && |outcomes| == |files|
      modifies this
      ensures Valid()
      ensures old(files) == [] ==> State() == old(State())
      ensures old(files) != [] ==> State() == old(State()).(
        files := [],
        documents := old(documents) + Extracted(old(files), outcomes),
        errorMessage := LastError(old(files), outcomes).GetOr(""),
        successMessage := ProcessMessage(|old(files)|, Succeeded(outcomes), LastError(old(files), outcomes).Some?))
    {
      if files == [] {
        return;
      }
      var docs, processed, lastError := ExtractAll(files, outcomes);
      documents := documents + docs;
      errorMessage := lastError.GetOr("");
      successMessage := ProcessMessage(|files|, processed, lastError.Some?);
      files := [];
    }

    /** `handleTogglePolicy` for a policy of a listed document. */
    method TogglePolicy(doc: nat, id: string)
      requires Valid() && doc < |documents|
      modifies this
      ensures Valid()
      ensures State() == old(State()).(selection := Toggled(old(selection), SelKey(doc, id)))
    {
      ToggleValid(selection, SelKey(doc, id), |documents|);
      selection := Toggled(selection, SelKey(doc, id));
    }

    /** `handleSaveEdit` for the dialog opened on document `doc`. */
    method SaveEdit(doc: nat, policy: Policy)
      requires Valid() && doc < |documents|
      modifies this
      ensures Valid()
      ensures State() == old(State()).(documents := SaveEdited(old(documents), doc, policy))
    {
      SaveEditedEffect(documents, doc, policy);
      documents := SaveEdited(documents, doc, policy);
    }

    /** `handleApproveSelected`: with nothing checked, an error; otherwise
        the checked policies are marked approved, and when any of them exists
        their rules are returned for the rule editor and the selection is
        cleared. An empty result means the rule editor is not called. */
    method ApproveSelected() returns (added: seq<NewRule>)
      requires Valid()
      modifies this
      ensures Valid()
      ensures SelectedIds(old(selection)) == [] ==>
        added == [] && State() == old(State()).(errorMessage := "Please select at least one policy to approve.")
      ensures SelectedIds(old(selection)) != [] ==>
        KeysBelow(SelectedIds(old(selection)), |old(documents)|) &&
        added == RulesFor(old(documents), SelectedIds(old(selection))) &&
        documents == ApproveAll(old(documents), SelectedIds(old(selection))) &&
        files == old(files) && errorMessage == old(errorMessage) &&
        (added == [] ==> selection == old(selection) && successMessage == old(successMessage)) &&
        (added != [] ==>
          selection == [] && successMessage == NatToString(|added|) + " policies approved and added to main policy list.")
    {
      var ids := SelectedIds(selection);
      if ids == [] {
        errorMessage := "Please select at least one policy to approve.";
        return [];
      }
      SelectedIdsBound(selection, |documents|);
      var approved := ApproveLoop(documents, ids);
      ApproveAllEffect(documents, ids);
      RulesForSame(documents, approved, ids);
      added := RulesLoop(approved, ids);
      documents := approved;
      if added != [] {
        selection := [];
        successMessage := NatToString(|added|) + " policies approved and added to main policy list.";
      }
    }

    /** `handleRemoveDocument`. */
    method RemoveDocument(index: nat)
      requires Valid()
      modifies this
      ensures Valid()
      ensures State() == AfterRemoveDocument(old(State()), index)
    {
      ReindexValid(selection, index, |documents|);
      selection := ReindexSelection(selection, index);
      documents := WithoutIndex(documents, index);
    }

    /** `handleRemovePolicy`. */
    method RemovePolicy(doc: nat, id: string)
      requires Valid()
      modifies this
      ensures Valid()
      ensures State() == AfterRemovePolicy(old(State()), doc, id)
    {
      AfterRemovePolicyValid(State(), doc, id);
      if doc < |documents| {
        var remaining := Filter(documents[doc].policies, OtherId(id));
        if remaining == [] {
          RemoveDocument(doc);
        } else {
          documents := documents[doc := documents[doc].(policies := remaining)];
          var key := SelKey(doc, id);
          if Get(selection, key) == Some(true) {
            selection := Remove(selection, key);
          }
        }
      }
    }
  }
}
