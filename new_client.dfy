/**
 * The five-step intake wizard of src/pages/NewClient.tsx: a step number and
 * a form record, changed one event at a time. `validateStep` decides whether
 * Next may leave a step, and Submit hands the record to the submission
 * pipeline only when the last step is filled in.
 */
module NewClient {
  import opened Wrappers
  import opened Constants
  import opened FormTypes
  import opened InitialState
  import opened GoalSelector
  import opened FormSubmission
  import opened NavigationButtons

  /** `validateStep`: every field the step asks for is filled in. */
  predicate ValidateStep(currentStep: int, f: FormData) {
    if currentStep == 1 then
      Truthy(f.name) && Truthy(f.city) && Truthy(f.age) && Truthy(f.occupation)
    else if currentStep == 2 then
      Truthy(f.salary) && Truthy(f.sideIncome) && Truthy(f.otherIncome)
    else if currentStep == 3 then
      Truthy(f.bills) && Truthy(f.dailyLife) && Truthy(f.entertainment)
    else if currentStep == 4 then
      |SelectedGoals(f.goals)| == RequiredGoals && AllDetailed(SelectedGoals(f.goals))
    else if currentStep == 5 then
      Truthy(RiskText(f.riskTolerance)) && Truthy(f.monthlySavings) && Truthy(f.emergencyCash)
    else
      true
  }

  /** The step on which each text input is rendered. */
  function FieldStep(k: TextField): (step: int)
    ensures 1 <= step <= TotalSteps && step != 4
  {
    match k
    case Name => 1
    case City => 1
    case Age => 1
    case Occupation => 1
    case Salary => 2
    case SideIncome => 2
    case OtherIncome => 2
    case Bills => 3
    case DailyLife => 3
    case Entertainment => 3
    case MonthlySavings => 5
    case EmergencyCash => 5
  }

  /**
   * Steps 1, 2, 3 and 5 pass exactly when every text input rendered on
   * them is filled in (and, on step 5, a risk answer is chosen); any step
   * number outside 1 to 5 passes.
   */
  lemma TextStepsNeedTheirFields(step: int, f: FormData)
    requires step != 4
    ensures 1 <= step <= TotalSteps ==>
      (ValidateStep(step, f) <==>
        (forall k :: FieldStep(k) == step ==> Truthy(TextOf(f, k))) &&
        (step == 5 ==> f.riskTolerance != Unset))
    ensures !(1 <= step <= TotalSteps) ==> ValidateStep(step, f)
  {
    if step == 1 {
      assert TextOf(f, Name) == f.name && TextOf(f, City) == f.city;
      assert TextOf(f, Age) == f.age && TextOf(f, Occupation) == f.occupation;
    } else if step == 2 {
      assert TextOf(f, Salary) == f.salary && TextOf(f, SideIncome) == f.sideIncome;
      assert TextOf(f, OtherIncome) == f.otherIncome;
    } else if step == 3 {
      assert TextOf(f, Bills) == f.bills && TextOf(f, DailyLife) == f.dailyLife;
      assert TextOf(f, Entertainment) == f.entertainment;
    } else if step == 5 {
      assert TextOf(f, MonthlySavings) == f.monthlySavings && TextOf(f, EmergencyCash) == f.emergencyCash;
    }
  }

  /**
   * Step 4 passes exactly when three goals are selected and each selected
   * goal has an amount and a number of years.
   */
  lemma GoalStepNeedsThreeDetailedGoals(f: FormData)
    ensures ValidateStep(4, f) <==>
      |SelectedKeys(f.goals)| == RequiredGoals &&
      forall k :: k in SelectedKeys(f.goals) ==>
        Truthy(GoalOf(f.goals, k).amount) && Truthy(GoalOf(f.goals, k).years)
  {
    SelectedCountIsKeyCount(f.goals);
    AllDetailedByKeys(f.goals);
  }

  /** Typing into an input rendered on another step leaves this step's verdict alone. */
  lemma OtherStepsIgnoreTextEdit(step: int, f: FormData, k: TextField, v: string)
    requires FieldStep(k) != step
    ensures ValidateStep(step, WithText(f, k, v)) == ValidateStep(step, f)
  {
    if step != 4 {
      TextStepsNeedTheirFields(step, f);
      TextStepsNeedTheirFields(step, WithText(f, k, v));
    }
  }

  /** Goal edits only matter to step 4. */
  lemma OtherStepsIgnoreGoals(step: int, f: FormData, g: Goals)
    requires step != 4
    ensures ValidateStep(step, f.(goals := g)) == ValidateStep(step, f)
  {
  }

  /** The first two validations a fresh wizard meets both fail. */
  lemma InitialStateFailsSteps()
    ensures !ValidateStep(1, InitialFormData())
    ensures !ValidateStep(4, InitialFormData())
  {
    var f := InitialFormData();
    assert TextOf(f, Name) == "";
  }

  /** `nextStep`: stay unless the step validates, and never go past the last step. */
  function NextStepOf(step: int, f: FormData): (next: int)
    requires 1 <= step <= TotalSteps
    ensures 1 <= next <= TotalSteps
    ensures !ValidateStep(step, f) ==> next == step
    ensures ValidateStep(step, f) ==> next == if step < TotalSteps then step + 1 else step
  {
    if !ValidateStep(step, f) then step
    else if step + 1 < TotalSteps then step + 1 else TotalSteps
  }

  /** `prevStep`: one step back, never before the first. */
  function PrevStepOf(step: int): (prev: int)
    requires 1 <= step <= TotalSteps
    ensures 1 <= prev <= step
    ensures prev == step <==> step == 1
    ensures step > 1 ==> prev == step - 1
  {
    if step - 1 > 1 then step - 1 else 1
  }

  /** On a wizard step, Submit is rendered exactly on the last one, and Next on all others. */
  lemma SubmitOnlyOnLastStep(step: int)
    requires 1 <= step <= TotalSteps
    ensures Rendered(step, TotalSteps).submit <==> step == 5
    ensures Rendered(step, TotalSteps).next <==> step < 5
  {
  }

  /** Previous is rendered exactly when going back changes the step. */
  lemma PreviousMovesBack(step: int)
    requires 1 <= step <= TotalSteps
    ensures Rendered(step, TotalSteps).previous <==> PrevStepOf(step) != step
  {
  }

  /** While Next is rendered, a validated step advances by one. */
  lemma NextAdvancesWhenRendered(step: int, f: FormData)
    requires 1 <= step <= TotalSteps && Rendered(step, TotalSteps).next
    ensures NextStepOf(step, f) == step + 1 <==> ValidateStep(step, f)
  {
  }

  /**
   * The submit gate rechecks only the last step: a record can pass it with
   * earlier steps empty.
   */
  lemma SubmitGateIgnoresEarlierSteps()
    ensures exists f :: ValidateStep(5, f) && !ValidateStep(1, f) && !ValidateStep(4, f)
  {
    var f := InitialFormData().(riskTolerance := Medium, monthlySavings := "5000", emergencyCash := "0");
    InitialStateFailsSteps();
    OtherStepsIgnoreGoals(1, InitialFormData(), f.goals);
    assert f.goals == InitialFormData().goals;
    assert ValidateStep(5, f);
  }

  /** Every step before `step` validates on the record. */
  predicate EarlierStepsPass(step: int, f: FormData) {
    forall j :: 1 <= j < step ==> ValidateStep(j, f)
  }

  /**
   * The inputs of a step are rendered only while the wizard is on it
   * (the `FormStep isVisible` wrappers from src/pages/NewClient.tsx:164);
   * an edit through them keeps every earlier step valid.
   */
  lemma VisibleEditKeepsEarlierSteps(step: int, f: FormData, k: TextField, v: string)
    requires EarlierStepsPass(step, f) && FieldStep(k) == step
    ensures EarlierStepsPass(step, WithText(f, k, v))
  {
    forall j | 1 <= j < step
      ensures ValidateStep(j, WithText(f, k, v))
    {
      OtherStepsIgnoreTextEdit(j, f, k, v);
    }
  }

  /** Goal edits, made on step 4, and the risk answer, given on step 5, keep earlier steps valid. */
  lemma GoalAndRiskEditsKeepEarlierSteps(f: FormData, g: Goals, r: RiskTolerance)
    ensures EarlierStepsPass(4, f) ==> EarlierStepsPass(4, f.(goals := g))
    ensures EarlierStepsPass(5, f) ==> EarlierStepsPass(5, f.(riskTolerance := r))
  {
    forall j | 1 <= j < 4
      ensures ValidateStep(j, f.(goals := g)) == ValidateStep(j, f)
    {
      OtherStepsIgnoreGoals(j, f, g);
    }
    forall j | 1 <= j < 5
      ensures ValidateStep(j, f.(riskTolerance := r)) == ValidateStep(j, f)
    {
      if j == 4 {
        assert f.(riskTolerance := r).goals == f.goals;
      }
    }
  }

  /** Next and Previous both keep "every earlier step validates". */
  lemma MovesKeepEarlierSteps(step: int, f: FormData)
    requires 1 <= step <= TotalSteps && EarlierStepsPass(step, f)
    ensures EarlierStepsPass(NextStepOf(step, f), f)
    ensures EarlierStepsPass(PrevStepOf(step), f)
  {
  }

  /**
   * So a wizard used through its visible inputs reaches Submit with every
   * step valid, although `handleSubmit` rechecks only the last one.
   */
  lemma SubmitFromLastStepPassesAll(f: FormData)
    requires EarlierStepsPass(TotalSteps, f) && ValidateStep(5, f)
    ensures forall step :: 1 <= step <= TotalSteps ==> ValidateStep(step, f)
  {
  }

  /** The wizard's state: the current step and the record being filled in. */
  class Wizard {
    var step: int
    var form: FormData

    /** The step is one of the five, and at most three goals are selected. */
    predicate Valid()
      reads this
    {
      1 <= step <= TotalSteps && SelectedCount(form.goals) <= RequiredGoals
    }

    /** A freshly mounted wizard: first step, empty record. */
    constructor ()
      ensures Valid()
      ensures step == 1 && form == InitialFormData()
      ensures EarlierStepsPass(step, form)
    {
      step := 1;
      form := InitialFormData();
    }

    /** `handleInputChange`: the named text field takes the typed value. */
    method HandleInputChange(k: TextField, value: string)
      requires Valid()
      modifies this
      ensures Valid()
      ensures step == old(step) && form == WithText(old(form), k, value)
      ensures FieldStep(k) == step && EarlierStepsPass(step, old(form)) ==> EarlierStepsPass(step, form)
    {
      if FieldStep(k) == step && EarlierStepsPass(step, form) {
        VisibleEditKeepsEarlierSteps(step, form, k, value);
      }
      form := WithText(form, k, value);
    }

    /** The risk-tolerance radio group stores the chosen answer. */
    method SetRiskTolerance(r: RiskTolerance)
      requires Valid()
      modifies this
      ensures Valid()
      ensures step == old(step) && form == old(form).(riskTolerance := r)
      ensures step == 5 && EarlierStepsPass(step, old(form)) ==> EarlierStepsPass(step, form)
    {
      GoalAndRiskEditsKeepEarlierSteps(form, form.goals, r);
      form := form.(riskTolerance := r);
    }

    /**
     * `handleGoalToggle`: selecting a fourth goal is refused and changes
     * nothing; any other toggle flips the goal's `selected` flag.
     */
    method HandleGoalToggle(k: GoalKey) returns (accepted: bool)
      requires Valid()
      modifies this
      ensures Valid()
      ensures accepted <==> GoalOf(old(form).goals, k).selected || SelectedCount(old(form).goals) < RequiredGoals
      ensures accepted ==> form == old(form).(goals := Toggled(old(form).goals, k))
      ensures !accepted ==> form == old(form)
      ensures step == old(step)
      ensures step == 4 && EarlierStepsPass(step, old(form)) ==> EarlierStepsPass(step, form)
    {
      var currentSelectedCount := SelectedCount(form.goals);
      var isCurrentlySelected := GoalOf(form.goals, k).selected;
      if !isCurrentlySelected && currentSelectedCount >= 3 {
        return false;
      }
      ToggleKeepsAtMostThree(form.goals, k);
      var toggled := form.(goals := Toggled(form.goals, k));
      GoalAndRiskEditsKeepEarlierSteps(form, toggled.goals, form.riskTolerance);
      form := toggled;
      accepted := true;
    }

    /** `handleGoalAmountChange`: the goal's amount takes the value. */
    method HandleGoalAmountChange(k: GoalKey, value: string)
      requires Valid()
      modifies this
      ensures Valid()
      ensures step == old(step) && form == old(form).(goals := WithAmount(old(form).goals, k, value))
      ensures step == 4 && EarlierStepsPass(step, old(form)) ==> EarlierStepsPass(step, form)
    {
      EditsKeepSelection(form.goals, k, value);
      GoalAndRiskEditsKeepEarlierSteps(form, WithAmount(form.goals, k, value), form.riskTolerance);
      form := form.(goals := WithAmount(form.goals, k, value));
    }

    /** `handleGoalYearsChange`: the goal's number of years takes the value. */
    method HandleGoalYearsChange(k: GoalKey, value: string)
      requires Valid()
      modifies this
      ensures Valid()
      ensures step == old(step) && form == old(form).(goals := WithYears(old(form).goals, k, value))
      ensures step == 4 && EarlierStepsPass(step, old(form)) ==> EarlierStepsPass(step, form)
    {
      EditsKeepSelection(form.goals, k, value);
      GoalAndRiskEditsKeepEarlierSteps(form, WithYears(form.goals, k, value), form.riskTolerance);
      form := form.(goals := WithYears(form.goals, k, value));
    }

    /** A keystroke in a goal's amount box: passed on only through `validateAmount`. */
    method GoalAmountInput(k: GoalKey, value: string)
      requires Valid()
      modifies this
      ensures Valid()
      ensures step == old(step)
      ensures ValidateAmount(value).None? ==> form == old(form)
      ensures ValidateAmount(value).Some? ==> form == old(form).(goals := WithAmount(old(form).goals, k, value))
      ensures step == 4 && EarlierStepsPass(step, old(form)) ==> EarlierStepsPass(step, form)
    {
      var forwarded := ValidateAmount(value);
      if forwarded.Some? {
        HandleGoalAmountChange(k, forwarded.value);
      }
    }

    /** A keystroke in a goal's years box: passed on only through `validateYears`. */
    method GoalYearsInput(k: GoalKey, value: string)
      requires Valid()
      modifies this
      ensures Valid()
      ensures step == old(step)
      ensures ValidateYears(value).None? ==> form == old(form)
      ensures ValidateYears(value).Some? ==> form == old(form).(goals := WithYears(old(form).goals, k, value))
      ensures step == 4 && EarlierStepsPass(step, old(form)) ==> EarlierStepsPass(step, form)
    {
      var forwarded := ValidateYears(value);
      if forwarded.Some? {
        HandleGoalYearsChange(k, forwarded.value);
      }
    }

    /** `nextStep`: advance when the current step validates, up to the last step. */
    method NextStep() returns (advanced: bool)
      requires Valid()
      modifies this
      ensures Valid()
      ensures form == old(form) && step == NextStepOf(old(step), old(form))
      ensures advanced <==> step != old(step)
      ensures EarlierStepsPass(old(step), form) ==> EarlierStepsPass(step, form)
    {
      if EarlierStepsPass(step, form) {
        MovesKeepEarlierSteps(step, form);
      }
      if !ValidateStep(step, form) {
        return false;
      }
      var next := if step + 1 < |StepTitles| then step + 1 else |StepTitles|;
      advanced := next != step;
      step := next;
    }

    /** `prevStep`: go back one step, not before the first. */
    method PrevStep()
      requires Valid()
      modifies this
      ensures Valid()
      ensures form == old(form) && step == PrevStepOf(old(step))
      ensures EarlierStepsPass(old(step), form) ==> EarlierStepsPass(step, form)
    {
      if EarlierStepsPass(step, form) {
        MovesKeepEarlierSteps(step, form);
      }
      step := if step - 1 > 1 then step - 1 else 1;
    }

    /**
     * `handleSubmit`: the record goes to the submission pipeline only when
     * the last step validates; earlier steps are not rechecked.
     */
    method HandleSubmit(
      user: Option<User>,
      lookup: Reply<seq<ClientRecord>>,
      clientInsert: Reply<ClientRecord>,
      formInsert: Reply<Id>)
      returns (submitted: bool, result: Option<Id>, calls: seq<DbCall>)
      requires Valid()
      ensures submitted <==> ValidateStep(5, form)
      ensures !submitted ==> result == None && calls == []
      ensures submitted ==> Outcome(result, calls) == Submission(user, form, lookup, clientInsert, formInsert)
      ensures submitted && step == TotalSteps && EarlierStepsPass(step, form) ==>
        forall j :: 1 <= j <= TotalSteps ==> ValidateStep(j, form)
    {
      if !ValidateStep(5, form) {
        return false, None, [];
      }
      if step == TotalSteps && EarlierStepsPass(step, form) {
        SubmitFromLastStepPassesAll(form);
      }
      result, calls := SubmitForm(user, form, lookup, clientInsert, formInsert);
      submitted := true;
    }
  }
}
