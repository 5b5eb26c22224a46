/** The budget page: the create/edit form with its category and department
    allocation lists, the allocation checks made on submission, the id and
    the spent/remaining figures a submitted budget gets, the colour of a
    utilisation bar and the row selection. Amounts are integer cents;
    `None` stands for an input left empty (`''`). */
module BudgetManagement {
  import opened Basics
  import opened Seqs
  import opened Text
  import opened Ledger
  import opened DataStore

  /** What the form holds; `id` is present only when an existing budget is edited. */
  datatype BudgetForm = BudgetForm(
    id: Option<string>,
    name: string,
    startDate: Option<int>,
    endDate: Option<int>,
    amount: Option<int>,
    categories: seq<Allocation>,
    departments: seq<Allocation>)

  /** The "new category" / "new department" inputs. */
  datatype AllocationInput = AllocationInput(name: string, allocation: Option<int>)

  const EmptyForm := BudgetForm(None, "", None, None, None, [], [])
  const EmptyInput := AllocationInput("", None)

  /** JavaScript truthiness of the amount inputs: empty and zero are false. */
  predicate Truthy(x: Option<int>) {
    x.Some? && x.value != 0
  }

  /** `parseFloat(value) || ''`: an unparsable input (`None`) and a zero both
      leave the field empty. */
  function ParsedOrEmpty(parsed: Option<int>): (r: Option<int>)
    ensures r.Some? <==> Truthy(parsed)
    ensures r.Some? ==> r == parsed
  {
    if Truthy(parsed) then parsed else None
  }

  // ---- allocation lists ----

  /** `reduce((sum, a) => sum + a.allocation, 0)`. */
  function SumAlloc(s: seq<Allocation>): int {
    if s == [] then 0 else SumAlloc(s[..|s| - 1]) + s[|s| - 1].allocation
  }

  lemma {:induction false} SumAllocAppend(a: seq<Allocation>, b: seq<Allocation>)
    ensures SumAlloc(a + b) == SumAlloc(a) + SumAlloc(b)
  {
    if b == [] {
      assert a + b == a;
    } else {
      var n := |b| - 1;
      assert (a + b)[..|a + b| - 1] == a + b[..n];
      SumAllocAppend(a, b[..n]);
    }
  }

  /** `handleAddCategory` / `handleAddDepartment`: the input joins the list
      with nothing spent, only when both its name and allocation are set. */
  function AddEntry(list: seq<Allocation>, input: AllocationInput): seq<Allocation> {
    if input.name != "" && Truthy(input.allocation)
    then list + [Allocation(input.name, input.allocation.value, 0)]
    else list
  }

  /** Adding an entry appends exactly one element carrying the input, and the
      running total grows by its allocation; an incomplete input changes nothing. */
  lemma AddEntryEffect(list: seq<Allocation>, input: AllocationInput)
    ensures input.name != "" && Truthy(input.allocation) ==>
      AddEntry(list, input)[..|list|] == list &&
      |AddEntry(list, input)| == |list| + 1 &&
      AddEntry(list, input)[|list|] == Allocation(input.name, input.allocation.value, 0) &&
      SumAlloc(AddEntry(list, input)) == SumAlloc(list) + input.allocation.value
    ensures !(input.name != "" && Truthy(input.allocation)) ==> AddEntry(list, input) == list
  {
    if input.name != "" && Truthy(input.allocation) {
      var e := Allocation(input.name, input.allocation.value, 0);
      assert (list + [e])[..|list|] == list;
    }
  }

  /** `splice(index, 1)` on a copy: the element at `index` goes, the rest
      keep their order; an index past the end changes nothing. */
  function RemoveEntry(list: seq<Allocation>, index: nat): seq<Allocation> {
    if index < |list| then RemoveAt(list, index) else list
  }

  /** Removing an entry takes exactly its allocation off the running total. */
  lemma RemoveEntryEffect(list: seq<Allocation>, index: nat)
    ensures index < |list| ==>
      |RemoveEntry(list, index)| == |list| - 1 &&
      RemoveEntry(list, index) == list[..index] + list[index + 1..] &&
      SumAlloc(RemoveEntry(list, index)) == SumAlloc(list) - list[index].allocation
    ensures index >= |list| ==> RemoveEntry(list, index) == list
  {
    if index < |list| {
      SumAllocAppend(list[..index], list[index + 1..]);
      SumAllocAppend(list[..index], [list[index]]);
      SumAllocAppend(list[..index] + [list[index]], list[index + 1..]);
      assert list[..index] + [list[index]] + list[index + 1..] == list;
      assert SumAlloc([list[index]]) == list[index].allocation by {
        assert [list[index]][..0] == [];
      }
    }
  }

  // ---- submission ----

  /** `total !== parseFloat(amount)`, negated: an empty amount parses to NaN
      and never matches. */
  predicate Matches(total: int, amount: Option<int>) {
    amount.Some? && total == amount.value
  }

  datatype SubmitError =
    | CategoryMismatch(categoryTotal: int, amount: Option<int>)
    | DepartmentMismatch(departmentTotal: int, amount: Option<int>)

  /** The two allocation checks of `handleSubmitBudget`, categories first. */
  function CheckAllocations(form: BudgetForm): Option<SubmitError> {
    if !Matches(SumAlloc(form.categories), form.amount) then
      Some(CategoryMismatch(SumAlloc(form.categories), form.amount))
    else if !Matches(SumAlloc(form.departments), form.amount) then
      Some(DepartmentMismatch(SumAlloc(form.departments), form.amount))
    else None
  }

  /** `budgets.find(b => b.id === id)`. */
  function FindBudget(budgets: seq<Budget>, id: string): (r: Option<Budget>)
    ensures r.None? <==> forall k :: 0 <= k < |budgets| ==> budgets[k].id != id
    ensures r.Some? ==> r.value.id == id
    ensures r.Some? ==> exists k :: 0 <= k < |budgets| && budgets[k] == r.value && (forall j :: 0 <= j < k ==> budgets[j].id != id)
  {
    if budgets == [] then None
    else if budgets[0].id == id then
      assert budgets[0] == budgets[0];
      Some(budgets[0])
    else
      var r := FindBudget(budgets[1..], id);
      if r.Some? then
        var k :| 0 <= k < |budgets[1..]| && budgets[1..][k] == r.value &&
          forall j :: 0 <= j < k ==> budgets[1..][j].id != id;
        assert budgets[k + 1] == r.value;
        assert forall j :: 1 <= j < k + 1 ==> budgets[j].id == budgets[1..][j - 1].id;
        r
      else r
  }

  /** The id a new budget gets: "BUD-" and the list length plus one,
      left-padded with zeros to three digits. */
  function BudgetId(k: nat): string {
    "BUD-" + PadStart(NatToString(k), 3, '0')
  }

  /** As written, the id of a budget created now. */
  function NewBudgetId(budgets: seq<Budget>): string {
    BudgetId(|budgets| + 1)
  }

  /** The budget `handleSubmitBudget` stores when editing: the form's fields,
      with the spent amount and the status of the budget it edits (0 and
      'Active' when that budget is gone, or its status is empty), and the
      remaining amount recomputed. */
  function EditedBudget(form: BudgetForm, budgets: seq<Budget>): Budget
    requires form.id.Some? && form.startDate.Some? && form.endDate.Some? && form.amount.Some?
  {
    var found := FindBudget(budgets, form.id.value);
    var spent := if found.Some? then found.value.spent else 0;
    var status := if found.Some? && found.value.status != "" then found.value.status else "Active";
    Budget(form.id.value, form.name, form.startDate.value, form.endDate.value, form.amount.value,
           spent, form.amount.value - spent, status, form.categories, form.departments)
  }

  /** The budget `handleSubmitBudget` adds when creating, given its id. */
  function NewBudget(id: string, form: BudgetForm): Budget
    requires form.startDate.Some? && form.endDate.Some? && form.amount.Some?
  {
    Budget(id, form.name, form.startDate.value, form.endDate.value, form.amount.value,
           0, form.amount.value, "Active", form.categories, form.departments)
  }

  /** As written, the created budget is numbered by the list length. */
  function CreatedBudget(form: BudgetForm, budgets: seq<Budget>): Budget
    requires form.startDate.Some? && form.endDate.Some? && form.amount.Some?
  {
    NewBudget(NewBudgetId(budgets), form)
  }

  /** Corrected, the created budget is numbered past every id in use. */
  function CreatedBudgetFixed(form: BudgetForm, budgets: seq<Budget>): (b: Budget)
    requires form.startDate.Some? && form.endDate.Some? && form.amount.Some?
    ensures forall k :: 0 <= k < |budgets| ==> budgets[k].id != b.id
    ensures (forall k :: 0 <= k < |budgets| ==> budgets[k].id == BudgetId(k + 1)) ==>
      b == CreatedBudget(form, budgets)
  {
    FreshBudgetIdUnused(budgets);
    NewBudget(FreshBudgetId(budgets), form)
  }

  datatype Submission = Rejected(error: SubmitError) | Updated(budget: Budget) | Created(budget: Budget)

  /** `handleSubmitBudget`. The form's dates are present: the button that
      submits is disabled otherwise. */
  function Submit(form: BudgetForm, editing: bool, budgets: seq<Budget>): Submission
    requires form.startDate.Some? && form.endDate.Some?
    requires editing ==> form.id.Some?
  {
    match CheckAllocations(form)
    case Some(e) => Rejected(e)
    case None =>
      if editing then Updated(EditedBudget(form, budgets)) else Created(CreatedBudget(form, budgets))
  }

  /** A submission is refused exactly when an allocation list does not add
      up to the amount, the category check coming first; an accepted budget
      is balanced: its lists add up to its amount and spent plus remaining
      is its amount. */
  lemma SubmitChecks(form: BudgetForm, editing: bool, budgets: seq<Budget>)
    requires form.startDate.Some? && form.endDate.Some?
    requires editing ==> form.id.Some?
    ensures Submit(form, editing, budgets).Rejected? <==>
      !Matches(SumAlloc(form.categories), form.amount) || !Matches(SumAlloc(form.departments), form.amount)
    ensures !Matches(SumAlloc(form.categories), form.amount) ==>
      Submit(form, editing, budgets) == Rejected(CategoryMismatch(SumAlloc(form.categories), form.amount))
    ensures !Submit(form, editing, budgets).Rejected? ==>
      var b := Submit(form, editing, budgets).budget;
      b.amount == form.amount.value && b.spent + b.remaining == b.amount &&
      SumAlloc(b.categories) == b.amount && SumAlloc(b.departments) == b.amount &&
      b.name == form.name && b.categories == form.categories && b.departments == form.departments
  {
  }

  /** A new budget starts with nothing spent, all of it remaining and status
      'Active', and its id is "BUD-" and the list length plus one. */
  lemma CreatedFresh(form: BudgetForm, budgets: seq<Budget>)
    requires form.startDate.Some? && form.endDate.Some?
    requires Submit(form, false, budgets).Created?
    ensures var b := Submit(form, false, budgets).budget;
      b.id == BudgetId(|budgets| + 1) && b.amount == form.amount.value &&
      b.spent == 0 && b.remaining == b.amount && b.status == "Active"
  {
  }

  /** An edited budget keeps the spent amount and status of the first budget
      with its id, and falls back to 0 and 'Active' when there is none. */
  lemma EditedKeeps(form: BudgetForm, budgets: seq<Budget>)
    requires form.id.Some? && form.startDate.Some? && form.endDate.Some?
    requires Submit(form, true, budgets).Updated?
    ensures Submit(form, true, budgets).budget.id == form.id.value
    ensures (forall k :: 0 <= k < |budgets| ==> budgets[k].id != form.id.value) ==>
      Submit(form, true, budgets).budget.spent == 0 && Submit(form, true, budgets).budget.status == "Active"
    ensures var b := Submit(form, true, budgets).budget;
      forall k :: 0 <= k < |budgets| && budgets[k].id == b.id && (forall j :: 0 <= j < k ==> budgets[j].id != b.id) ==>
        b.spent == budgets[k].spent && (budgets[k].status != "" ==> b.status == budgets[k].status)
  {
    var id := form.id.value;
    var found := FindBudget(budgets, id);
    forall k | 0 <= k < |budgets| && budgets[k].id == id && (forall j :: 0 <= j < k ==> budgets[j].id != id)
      ensures found == Some(budgets[k])
    {
      var m :| 0 <= m < |budgets| && budgets[m] == found.value && forall j :: 0 <= j < m ==> budgets[j].id != id;
      assert m == k;
    }
  }

  /** `disabled` of the submit button. */
  predicate SubmitDisabled(loading: bool, form: BudgetForm) {
    loading || form.name == "" || form.startDate.None? || form.endDate.None? || !Truthy(form.amount) ||
    form.categories == [] || form.departments == [] ||
    !Matches(SumAlloc(form.categories), form.amount) || !Matches(SumAlloc(form.departments), form.amount)
  }

  /** Whatever the enabled button submits passes both allocation checks, and
      a non-empty allocation list with positive entries is what makes a
      positive amount reachable. */
  lemma EnabledSubmitAccepted(form: BudgetForm, editing: bool, budgets: seq<Budget>)
    requires !SubmitDisabled(false, form)
    requires editing ==> form.id.Some?
    ensures !Submit(form, editing, budgets).Rejected?
    ensures form.name != "" && form.categories != [] && form.departments != [] && form.amount.value != 0
  {
  }

  // ---- budget ids ----

  predicate IsDigits(s: string) {
    forall i :: 0 <= i < |s| ==> '0' <= s[i] <= '9'
  }

  /** The number of an id of the form "BUD-" followed by digits. */
  function IdNumber(id: string): Option<int> {
    if |id| >= 4 && id[..4] == "BUD-" && IsDigits(id[4..]) then Some(ParseDigits(id[4..])) else None
  }

  lemma {:induction false} LeadingZero(s: string)
    ensures ParseDigits(['0'] + s) == ParseDigits(s)
  {
    if s != [] {
      var n := |s| - 1;
      assert (['0'] + s)[..|s|] == ['0'] + s[..n];
      LeadingZero(s[..n]);
    } else {
      assert (['0'] + s)[..0] == [];
    }
  }

  lemma {:induction false} PadDigits(s: string, width: nat)
    requires IsDigits(s)
    ensures IsDigits(PadStart(s, width, '0'))
    ensures ParseDigits(PadStart(s, width, '0')) == ParseDigits(s)
    decreases width - |s|
  {
    if |s| < width {
      LeadingZero(s);
      PadDigits(['0'] + s, width);
    }
  }

  /** The number is read back from every generated id. */
  lemma IdNumberOfBudgetId(k: nat)
    ensures IdNumber(BudgetId(k)) == Some(k)
  {
    var p := PadStart(NatToString(k), 3, '0');
    PadDigits(NatToString(k), 3);
    ParseNatToString(k);
    assert BudgetId(k)[..4] == "BUD-" && BudgetId(k)[4..] == p;
  }

  /** Generated ids of different numbers differ. */
  lemma BudgetIdInjective(j: nat, k: nat)
    requires BudgetId(j) == BudgetId(k)
    ensures j == k
  {
    IdNumberOfBudgetId(j);
    IdNumberOfBudgetId(k);
  }

  /** As written, deleting the first of two budgets created in turn and
      creating another gives the new budget the id of the one that is left. */
  lemma IdCollisionAsWritten(b1: Budget, b2: Budget)
    requires b1.id == BudgetId(1) && b2.id == BudgetId(2)
    ensures Filter([b1, b2], NotBudget(BudgetId(1))) == [b2]
    ensures NewBudgetId(Filter([b1, b2], NotBudget(BudgetId(1)))) == b2.id
  {
    if BudgetId(2) == BudgetId(1) {
      BudgetIdInjective(2, 1);
    }
    assert [b1, b2][1..] == [b2];
    assert [b2][1..] == [];
  }

  /** As written, on the page: with budgets BUD-001 and BUD-002, deleting
      BUD-001 and then creating a budget stores a second budget with the id
      BUD-002. */
  lemma SubmitAfterDeleteCollides(form: BudgetForm, b1: Budget, b2: Budget)
    requires form.startDate.Some? && form.endDate.Some?
    requires b1.id == BudgetId(1) && b2.id == BudgetId(2)
    requires Submit(form, false, Filter([b1, b2], NotBudget(BudgetId(1)))).Created?
    ensures var left := Filter([b1, b2], NotBudget(BudgetId(1)));
      left == [b2] && Submit(form, false, left).budget.id == b2.id
  {
    IdCollisionAsWritten(b1, b2);
  }

  /** The largest number among the ids of the form "BUD-" and digits, or 0. */
  function MaxIdNumber(budgets: seq<Budget>): (r: int)
    ensures r >= 0
    ensures forall k :: 0 <= k < |budgets| && IdNumber(budgets[k].id).Some? ==> IdNumber(budgets[k].id).value <= r
  {
    if budgets == [] then 0
    else
      var n := |budgets| - 1;
      var m := MaxIdNumber(budgets[..n]);
      assert forall k :: 0 <= k < n ==> budgets[..n][k] == budgets[k];
      match IdNumber(budgets[n].id)
      case Some(v) => if v > m then v else m
      case None => m
  }

  /** Corrected: the id numbered one past the largest id number in use. */
  function FreshBudgetId(budgets: seq<Budget>): string {
    BudgetId(MaxIdNumber(budgets) + 1)
  }

  /** Corrected, the new id is never one a listed budget already has, and it
      is the id the page gives as long as the budgets carry the ids
      BUD-001, BUD-002, ... in order, as they do when none was deleted. */
  lemma {:induction false} FreshBudgetIdUnused(budgets: seq<Budget>)
    ensures forall k :: 0 <= k < |budgets| ==> budgets[k].id != FreshBudgetId(budgets)
    ensures (forall k :: 0 <= k < |budgets| ==> budgets[k].id == BudgetId(k + 1)) ==>
      FreshBudgetId(budgets) == NewBudgetId(budgets)
  {
    IdNumberOfBudgetId(MaxIdNumber(budgets) + 1);
    if forall k :: 0 <= k < |budgets| ==> budgets[k].id == BudgetId(k + 1) {
      SequentialMax(budgets);
    }
  }

  lemma {:induction false} SequentialMax(budgets: seq<Budget>)
    requires forall k :: 0 <= k < |budgets| ==> budgets[k].id == BudgetId(k + 1)
    ensures MaxIdNumber(budgets) == |budgets|
  {
    if budgets != [] {
      var n := |budgets| - 1;
      assert forall k :: 0 <= k < n ==> budgets[..n][k] == budgets[k];
      SequentialMax(budgets[..n]);
      IdNumberOfBudgetId(n + 1);
    }
  }

  // ---- display ----

  datatype Color = Success | Warning | Error

  function Rank(c: Color): nat {
    match c
    case Success => 2
    case Warning => 1
    case Error => 0
  }

  /** `getProgressColor`: spending up to 60% is fine and past 80% is an
      error; in inverse mode (money left) at least 80% is fine and under 50%
      an error. */
  function ProgressColor(percent: real, inverse: bool): Color {
    if inverse then
      if percent >= 80.0 then Success else if percent >= 50.0 then Warning else Error
    else
      if percent <= 60.0 then Success else if percent <= 80.0 then Warning else Error
  }

  /** More spent never looks better; more left never looks worse. */
  lemma ProgressColorMonotone(p: real, q: real)
    requires p <= q
    ensures Rank(ProgressColor(q, false)) <= Rank(ProgressColor(p, false))
    ensures Rank(ProgressColor(p, true)) <= Rank(ProgressColor(q, true))
    ensures ProgressColor(p, false) == Success <==> p <= 60.0
    ensures ProgressColor(p, true) == Success <==> p >= 80.0
    ensures ProgressColor(p, false) == Error <==> p > 80.0
    ensures ProgressColor(p, true) == Error <==> p < 50.0
  {
  }

  /** `handleSelectBudget`. */
  function ToggleSelection(selected: Option<Budget>, b: Budget): (r: Option<Budget>)
    ensures r == Some(b) <==> selected != Some(b)
    ensures r.None? <==> selected == Some(b)
  {
    if selected == Some(b) then None else Some(b)
  }

  // ---- the page ----

  /** What the snackbar reports. */
  datatype Notice = NoNotice | Failed(error: SubmitError) | BudgetUpdated | BudgetCreated | BudgetDeleted

  datatype PageState = PageState(
    form: BudgetForm,
    isEditing: bool,
    dialogOpen: bool,
    newCategory: AllocationInput,
    newDepartment: AllocationInput,
    selected: Option<Budget>,
    notice: Notice)

  /** The form a budget is edited in. */
  function FormOf(b: Budget): BudgetForm {
    BudgetForm(Some(b.id), b.name, Some(b.startDate), Some(b.endDate), Some(b.amount), b.categories, b.departments)
  }

  /** Resubmitting an unchanged, balanced budget stores it with its figures
      recomputed from its own spent amount and status. */
  lemma EditUnchanged(b: Budget, budgets: seq<Budget>)
    requires FindBudget(budgets, b.id) == Some(b) && b.status != ""
    requires SumAlloc(b.categories) == b.amount && SumAlloc(b.departments) == b.amount
    ensures Submit(FormOf(b), true, budgets) == Updated(b.(remaining := b.amount - b.spent))
  {
  }

  class BudgetPage {
    var form: BudgetForm
    var isEditing: bool
    var dialogOpen: bool
    var newCategory: AllocationInput
    var newDepartment: AllocationInput
    var selected: Option<Budget>
    var notice: Notice

    function State(): PageState
      reads this
    {
      PageState(form, isEditing, dialogOpen, newCategory, newDepartment, selected, notice)
    }

    /** The form being edited always names the budget it edits. */
    predicate Valid()
      reads this
    {
      isEditing ==> form.id.Some?
    }

    constructor()
      ensures Valid()
      ensures State() == PageState(EmptyForm, false, false, EmptyInput, EmptyInput, None, NoNotice)
    {
      form := EmptyForm;
      isEditing := false;
      dialogOpen := false;
      newCategory := EmptyInput;
      newDepartment := EmptyInput;
      selected := None;
      notice := NoNotice;
    }

    /** `handleCreateBudget`. */
    method CreateBudget()
      modifies this
      ensures Valid()
      ensures State() == old(State()).(form := EmptyForm, isEditing := false, dialogOpen := true)
    {
      form := EmptyForm;
      isEditing := false;
      dialogOpen := true;
    }

    /** `handleEditBudget`. */
    method EditBudget(b: Budget)
      modifies this
      ensures Valid()
      ensures State() == old(State()).(form := FormOf(b), isEditing := true, dialogOpen := true)
    {
      form := FormOf(b);
      isEditing := true;
      dialogOpen := true;
    }

    /** `handleFormChange` on the amount field, `parsed` being what
        `parseFloat` read (`None` for NaN). */
    method AmountChange(parsed: Option<int>)
      requires Valid()
      modifies this
      ensures Valid()
      ensures State() == old(State()).(form := old(form).(amount := ParsedOrEmpty(parsed)))
    {
      form := form.(amount := ParsedOrEmpty(parsed));
    }

    /** `handleCategoryChange` on the allocation field. */
    method CategoryAllocationChange(parsed: Option<int>)
      modifies this
      ensures State() == old(State()).(newCategory := old(newCategory).(allocation := ParsedOrEmpty(parsed)))
    {
      newCategory := newCategory.(allocation := ParsedOrEmpty(parsed));
    }

    /** `handleDepartmentChange` on the allocation field. */
    method DepartmentAllocationChange(parsed: Option<int>)
      modifies this
      ensures State() == old(State()).(newDepartment := old(newDepartment).(allocation := ParsedOrEmpty(parsed)))
    {
      newDepartment := newDepartment.(allocation := ParsedOrEmpty(parsed));
    }

    /** `handleAddCategory`: the input is cleared only when it was added. */
    method AddCategory()
      requires Valid()
      modifies this
      ensures Valid()
      ensures old(newCategory.name != "" && Truthy(newCategory.allocation)) ==>
        State() == old(State()).(form := old(form).(categories := AddEntry(old(form.categories), old(newCategory))),
                                 newCategory := EmptyInput)
      ensures !old(newCategory.name != "" && Truthy(newCategory.allocation)) ==> State() == old(State())
    {
      if newCategory.name != "" && Truthy(newCategory.allocation) {
        form := form.(categories := AddEntry(form.categories, newCategory));
        newCategory := EmptyInput;
      }
    }

    /** `handleRemoveCategory`. */
    method RemoveCategory(index: nat)
      requires Valid()
      modifies this
      ensures Valid()
      ensures State() == old(State()).(form := old(form).(categories := RemoveEntry(old(form.categories), index)))
    {
      form := form.(categories := RemoveEntry(form.categories, index));
    }

    /** `handleAddDepartment`. */
    method AddDepartment()
      requires Valid()
      modifies this
      ensures Valid()
      ensures old(newDepartment.name != "" && Truthy(newDepartment.allocation)) ==>
        State() == old(State()).(form := old(form).(departments := AddEntry(old(form.departments), old(newDepartment))),
                                 newDepartment := EmptyInput)
      ensures !old(newDepartment.name != "" && Truthy(newDepartment.allocation)) ==> State() == old(State())
    {
      if newDepartment.name != "" && Truthy(newDepartment.allocation) {
        form := form.(departments := AddEntry(form.departments, newDepartment));
        newDepartment := EmptyInput;
      }
    }

    /** `handleRemoveDepartment`. */
    method RemoveDepartment(index: nat)
      requires Valid()
      modifies this
      ensures Valid()
      ensures State() == old(State()).(form := old(form).(departments := RemoveEntry(old(form.departments), index)))
    {
      form := form.(departments := RemoveEntry(form.departments, index));
    }

    /** `handleSubmitBudget` against the shared store: a refused form only
        reports why; an accepted one replaces or appends the budget and
        closes the dialog. */
    method SubmitBudget(store: Store)
      requires Valid() && form.startDate.Some? && form.endDate.Some?
      modifies this, store
      ensures Valid()
      ensures Submit(old(form), old(isEditing), old(store.budgets)).Rejected? ==>
        State() == old(State()).(notice := Failed(Submit(old(form), old(isEditing), old(store.budgets)).error)) &&
        store.State() == old(store.State())
      ensures Submit(old(form), old(isEditing), old(store.budgets)).Updated? ==>
        State() == old(State()).(notice := BudgetUpdated, dialogOpen := false) &&
        store.State() == old(store.State()).(budgets := ReplaceBudget(old(store.budgets), Submit(old(form), old(isEditing), old(store.budgets)).budget))
      ensures Submit(old(form), old(isEditing), old(store.budgets)).Created? ==>
        State() == old(State()).(notice := BudgetCreated, dialogOpen := false) &&
        store.State() == old(store.State()).(budgets := old(store.budgets) + [Submit(old(form), old(isEditing), old(store.budgets)).budget])
    {
      var s := Submit(form, isEditing, store.budgets);
      match s {
        case Rejected(e) =>
          notice := Failed(e);
        case Updated(b) =>
          store.UpdateBudget(b);
          notice := BudgetUpdated;
          dialogOpen := false;
        case Created(b) =>
          store.AddBudget(b);
          notice := BudgetCreated;
          dialogOpen := false;
      }
    }

    /** `handleDeleteBudget`, `confirmed` being the answer to the
        confirmation prompt. */
    method DeleteBudget(store: Store, budgetId: string, confirmed: bool)
      modifies this, store
      ensures Valid() <==> old(Valid())
      ensures confirmed ==>
        State() == old(State()).(notice := BudgetDeleted) &&
        store.State() == old(store.State()).(budgets := Filter(old(store.budgets), NotBudget(budgetId)))
      ensures !confirmed ==> State() == old(State()) && store.State() == old(store.State())
    {
      if confirmed {
        store.DeleteBudget(budgetId);
        notice := BudgetDeleted;
      }
    }

    /** `handleSelectBudget`: choosing the selected budget again clears the selection. */
    method SelectBudget(b: Budget)
      modifies this
      ensures State() == old(State()).(selected := ToggleSelection(old(selected), b))
    {
      selected := ToggleSelection(selected, b);
    }
  }
}
