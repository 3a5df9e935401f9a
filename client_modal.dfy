/**
 * The single-page intake form of src/components/ClientModal.tsx. It edits
 * the same record as the wizard with the same handlers, but checks the
 * whole record at once, in a fixed order, before submitting it.
 */
module ClientModal {
  import opened Wrappers
  import opened Constants
  import opened FormTypes
  import opened InitialState
  import opened GoalSelector
  import opened FormSubmission
  import opened NewClient

  /** The outcome of `validateForm`: passed, or the first check that failed. */
  datatype FormCheck =
    | Passed
    | MissingPersonal
    | MissingSalary
    | WrongGoalCount
    | MissingGoalDetails
    | MissingPreferences

  /** The position of each check in `validateForm`. */
  function Rank(c: FormCheck): nat {
    match c
    case MissingPersonal => 0
    case MissingSalary => 1
    case WrongGoalCount => 2
    case MissingGoalDetails => 3
    case MissingPreferences => 4
    case Passed => 5
  }

  /** `selectedGoals.some(goal => !goal.amount || !goal.years)` */
  predicate SomeUndetailed(s: seq<Goal>) {
    exists i :: 0 <= i < |s| && (!Truthy(s[i].amount) || !Truthy(s[i].years))
  }

  /** Whether the record fails the check named `c`, taken on its own. */
  predicate Fails(c: FormCheck, f: FormData) {
    match c
    case MissingPersonal => !(Truthy(f.name) && Truthy(f.city) && Truthy(f.age) && Truthy(f.occupation))
    case MissingSalary => !Truthy(f.salary)
    case WrongGoalCount => SelectedCount(f.goals) != RequiredGoals
    case MissingGoalDetails => !AllDetailed(SelectedGoals(f.goals))
    case MissingPreferences => !Truthy(RiskText(f.riskTolerance)) || !Truthy(f.monthlySavings)
    case Passed => false
  }

  /**
   * `validateForm` with its message: the checks run in order and the first
   * one that fails is reported; `Passed` when none fails.
   */
  function CheckForm(f: FormData): (r: FormCheck)
    ensures r != Passed ==> Fails(r, f)
    ensures r == Passed ==> forall c :: !Fails(c, f)
    ensures forall c :: Rank(c) < Rank(r) ==> !Fails(c, f)
  {
    if !Truthy(f.name) || !Truthy(f.city) || !Truthy(f.age) || !Truthy(f.occupation) then
      MissingPersonal
    else if !Truthy(f.salary) then
      MissingSalary
    else if |SelectedGoals(f.goals)| != 3 then
      WrongGoalCount
    else if SomeUndetailed(SelectedGoals(f.goals)) then
      MissingGoalDetails
    else if !Truthy(RiskText(f.riskTolerance)) || !Truthy(f.monthlySavings) then
      MissingPreferences
    else
      Passed
  }

  /** `validateForm()` */
  predicate ValidateForm(f: FormData) {
    CheckForm(f) == Passed
  }

  /** `some` of a missing detail is the negation of `every` detail present. */
  lemma SomeUndetailedIsNotAllDetailed(s: seq<Goal>)
    ensures SomeUndetailed(s) <==> !AllDetailed(s)
  {
  }

  /** The record passes exactly when none of the five checks fails. */
  lemma ValidateFormByChecks(f: FormData)
    ensures ValidateForm(f) <==>
      !Fails(MissingPersonal, f) && !Fails(MissingSalary, f) && !Fails(WrongGoalCount, f) &&
      !Fails(MissingGoalDetails, f) && !Fails(MissingPreferences, f)
  {
    SomeUndetailedIsNotAllDetailed(SelectedGoals(f.goals));
  }

  /**
   * The record passes exactly when the personal fields and the salary are
   * filled in, three goals are selected, each with an amount and a number
   * of years, and a risk answer and the monthly savings are given.
   */
  lemma ValidateFormExactly(f: FormData)
    ensures ValidateForm(f) <==>
      Truthy(f.name) && Truthy(f.city) && Truthy(f.age) && Truthy(f.occupation) &&
      Truthy(f.salary) &&
      |SelectedKeys(f.goals)| == RequiredGoals &&
      (forall k :: k in SelectedKeys(f.goals) ==>
        Truthy(GoalOf(f.goals, k).amount) && Truthy(GoalOf(f.goals, k).years)) &&
      f.riskTolerance != Unset && Truthy(f.monthlySavings)
  {
    ValidateFormByChecks(f);
    SelectedCountIsKeyCount(f.goals);
    AllDetailedByKeys(f.goals);
  }

  /** Side income, other income, the three expenses and the emergency fund are never checked. */
  lemma ValidateFormIgnoresOtherFields(f: FormData, k: TextField, v: string)
    requires k in {SideIncome, OtherIncome, Bills, DailyLife, Entertainment, EmergencyCash}
    ensures CheckForm(WithText(f, k, v)) == CheckForm(f)
  {
    var g := WithText(f, k, v);
    assert TextOf(g, Name) == TextOf(f, Name) && TextOf(g, City) == TextOf(f, City);
    assert TextOf(g, Age) == TextOf(f, Age) && TextOf(g, Occupation) == TextOf(f, Occupation);
    assert TextOf(g, Salary) == TextOf(f, Salary) && TextOf(g, MonthlySavings) == TextOf(f, MonthlySavings);
  }

  /** A record the wizard lets through every step also passes the single-page form. */
  lemma WizardStepsImplyValidateForm(f: FormData)
    requires forall step :: 1 <= step <= TotalSteps ==> ValidateStep(step, f)
    ensures ValidateForm(f)
  {
    assert ValidateStep(1, f) && ValidateStep(2, f) && ValidateStep(4, f) && ValidateStep(5, f);
    assert !SomeUndetailed(SelectedGoals(f.goals));
  }

  /**
   * The converse fails: clearing the side income of a record that passes
   * every wizard step keeps it acceptable here while the wizard's second
   * step now refuses it.
   */
  lemma ValidateFormIsWeaker(f: FormData)
    requires forall step :: 1 <= step <= TotalSteps ==> ValidateStep(step, f)
    ensures ValidateForm(f.(sideIncome := "")) && !ValidateStep(2, f.(sideIncome := ""))
  {
    WizardStepsImplyValidateForm(f);
    ValidateFormIgnoresOtherFields(f, SideIncome, "");
  }

  /** An untouched form is refused for its personal details first. */
  lemma InitialFormMissesPersonal()
    ensures CheckForm(InitialFormData()) == MissingPersonal
  {
    assert TextOf(InitialFormData(), Name) == "";
  }

  /** The form's state: the record being filled in. */
  class ClientForm {
    var form: FormData

    /** At most three goals are selected. */
    predicate Valid()
      reads this
    {
      SelectedCount(form.goals) <= RequiredGoals
    }

    /** The form as it opens: the empty record. */
    constructor ()
      ensures Valid() && form == InitialFormData()
    {
      form := InitialFormData();
    }

    /** `handleInputChange`: the named text field takes the typed value. */
    method HandleInputChange(k: TextField, value: string)
      requires Valid()
      modifies this
      ensures Valid() && form == WithText(old(form), k, value)
    {
      form := WithText(form, k, value);
    }

    /** The risk-tolerance radio group stores the chosen answer. */
    method SetRiskTolerance(r: RiskTolerance)
      requires Valid()
      modifies this
      ensures Valid() && form == old(form).(riskTolerance := r)
    {
      form := form.(riskTolerance := r);
    }

    /**
     * `handleGoalToggle`: selecting a fourth goal is refused and changes
     * nothing; any other toggle flips the goal's `selected` flag.
     */
    method HandleGoalToggle(k: GoalKey) returns (accepted: bool)
      requires Valid()
      modifies this
      ensures Valid()
      ensures accepted <==> GoalOf(old(form).goals, k).selected || SelectedCount(old(form).goals) < RequiredGoals
      ensures accepted ==> form == old(form).(goals := Toggled(old(form).goals, k))
      ensures !accepted ==> form == old(form)
    {
      var currentSelectedCount := SelectedCount(form.goals);
      var isCurrentlySelected := GoalOf(form.goals, k).selected;
      if !isCurrentlySelected && currentSelectedCount >= 3 {
        return false;
      }
      ToggleKeepsAtMostThree(form.goals, k);
      form := form.(goals := Toggled(form.goals, k));
      accepted := true;
    }

    /** `handleGoalAmountChange`: the goal's amount takes the value. */
    method HandleGoalAmountChange(k: GoalKey, value: string)
      requires Valid()
      modifies this
      ensures Valid() && form == old(form).(goals := WithAmount(old(form).goals, k, value))
    {
      EditsKeepSelection(form.goals, k, value);
      form := form.(goals := WithAmount(form.goals, k, value));
    }

    /** `handleGoalYearsChange`: the goal's number of years takes the value. */
    method HandleGoalYearsChange(k: GoalKey, value: string)
      requires Valid()
      modifies this
      ensures Valid() && form == old(form).(goals := WithYears(old(form).goals, k, value))
    {
      EditsKeepSelection(form.goals, k, value);
      form := form.(goals := WithYears(form.goals, k, value));
    }

    /** A keystroke in a goal's amount box: passed on only through `validateAmount`. */
    method GoalAmountInput(k: GoalKey, value: string)
      requires Valid()
      modifies this
      ensures Valid()
      ensures ValidateAmount(value).None? ==> form == old(form)
      ensures ValidateAmount(value).Some? ==> form == old(form).(goals := WithAmount(old(form).goals, k, value))
    {
      var forwarded := ValidateAmount(value);
      if forwarded.Some? {
        HandleGoalAmountChange(k, forwarded.value);
      }
    }

    /** A keystroke in a goal's years box: passed on only through `validateYears`. */
    method GoalYearsInput(k: GoalKey, value: string)
      requires Valid()
      modifies this
      ensures Valid()
      ensures ValidateYears(value).None? ==> form == old(form)
      ensures ValidateYears(value).Some? ==> form == old(form).(goals := WithYears(old(form).goals, k, value))
    {
      var forwarded := ValidateYears(value);
      if forwarded.Some? {
        HandleGoalYearsChange(k, forwarded.value);
      }
    }

    /** `handleSubmit`: the record goes to the submission pipeline only when `validateForm` passes. */
    method HandleSubmit(
      user: Option<User>,
      lookup: Reply<seq<ClientRecord>>,
      clientInsert: Reply<ClientRecord>,
      formInsert: Reply<Id>)
      returns (submitted: bool, result: Option<Id>, calls: seq<DbCall>)
      requires Valid()
      ensures submitted <==> ValidateForm(form)
      ensures !submitted ==> result == None && calls == []
      ensures submitted ==> Outcome(result, calls) == Submission(user, form, lookup, clientInsert, formInsert)
    {
      if CheckForm(form) != Passed {
        return false, None, [];
      }
      result, calls := SubmitForm(user, form, lookup, clientInsert, formInsert);
      submitted := true;
    }
  }
}
