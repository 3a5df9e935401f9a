# Client intake: a Dafny model

This project models the client-intake part of the BuildX front end. An
adviser records a client's personal details, income, expenses, three
financial goals and investment style. Two views do this:

- a five-step wizard (`NewClient`), where Next only leaves a step whose
  fields are filled in;
- a single-page form (`ClientModal`), which checks the whole record at once.

Either view hands the record to the submission hook. The hook:

1. looks up the signed-in user's client, reusing it or creating one;
2. converts the money fields from rupees to whole paise;
3. inserts the form row;
4. stops at the first database failure.

The model also covers the goal inputs' number filters, the rule for which
wizard buttons are shown, the empty starting record, and the form builder
(`NewForm`), which edits a list of field definitions by position.

Modules, one per source file, plus two helper modules (`Wrappers` and `JsParse`):

| module | file | source |
|---|---|---|
| `Wrappers` | wrappers.dfy | `Option` |
| `Constants` | constants.dfy | src/constants.ts |
| `FormTypes` | form_types.dfy | src/types/form.ts, plus the key-wise updates both views share |
| `InitialState` | initial_state.dfy | src/utils/initialState.ts |
| `JsParse` | js_parse.dfy | JavaScript `parseInt`/`parseFloat` over a restricted grammar |
| `GoalSelector` | goal_selector.dfy | src/components/GoalSelector.tsx |
| `NavigationButtons` | navigation_buttons.dfy | src/components/NavigationButtons.tsx |
| `FormSubmission` | form_submission.dfy | src/hooks/useFormSubmission.ts |
| `NewClient` | new_client.dfy | src/pages/NewClient.tsx |
| `ClientModal` | client_modal.dfy | src/components/ClientModal.tsx |
| `NewForm` | new_form.dfy | src/pages/NewForm.tsx |

How the model is built:

- **Strings and truthiness.** Every input is a `string`. JavaScript
  truthiness of a string is `Truthy(s)`, meaning `s != ""`, so "0" counts
  as filled in.
- **Views with state.** Each view's state is a class. `Wizard` holds the
  step and the record, `ClientForm` holds the record, and `FormEditor`
  holds the title, description and fields. Each event handler is a method
  that states the new state in terms of the old. `Valid()` holds the
  invariants the handlers keep: the step stays in 1..5 and at most three
  goals are selected.
- **The database.** It is replaced by its replies, given as inputs:
  `Failure`, `NoData` (no error, no row) or `Data(row)`.
  `FormSubmission.SubmitForm` returns the stored row's id and the list of
  requests it issued, in order. "No later stage runs" is a statement about
  that list. The pure function `Submission` describes the whole run, and
  the lemmas beside it pin down the request list in every case.

## Model

| member | source | states |
|---|---|---|
| FormTypes.RiskText | src/types/form.ts:30 | the stored text of the risk answer is empty exactly when no answer is chosen |
| FormTypes.WithText | src/pages/NewClient.tsx:24-27 | `{...prev, [name]: value}`: the named text field takes the value; every other text field, the goals and the risk answer are unchanged |
| FormTypes.WithGoal | src/pages/NewClient.tsx:77-86 | replacing one goal entry leaves the six other entries and the other-goal description unchanged |
| FormTypes.KeyIndex | src/types/form.ts:19-27 | each goal key has a position among the seven keys |
| FormTypes.GoalValues | src/types/form.ts:19-27 | `Object.values(goals)` has seven entries, the entry at a key's position being that key's goal |
| FormTypes.SelectedOf | src/pages/NewClient.tsx:51 | the `filter(goal => goal.selected)` keeps exactly the selected goals and is no longer than its input |
| FormTypes.SelectedOfMultiplicity | src/pages/NewClient.tsx:51 | the filter keeps every selected goal as many times as it occurs in the input, and no unselected goal, so its `length` counts equal selected goals separately |
| FormTypes.SelectedOfUpdate | src/pages/NewClient.tsx:69 | replacing one entry changes the filtered count by the change of that entry's flag |
| FormTypes.SelectedCountWith | src/pages/NewClient.tsx:77-86 | replacing one goal changes the selected count by the change of its flag |
| FormTypes.Toggled | src/pages/NewClient.tsx:77-86 | the toggled goal's `selected` flag is negated and its amount and years kept; the six other goals and the description are unchanged (count effects in `ToggleCount`, `ToggleInvolution`, `ToggleKeepsAtMostThree`) |
| FormTypes.ToggleCount | src/pages/NewClient.tsx:77-86 | an accepted toggle moves the selected count by exactly one, in the direction of the flip |
| FormTypes.ToggleInvolution | src/pages/NewClient.tsx:77-86 | toggling the same goal twice restores the goals |
| FormTypes.ToggleKeepsAtMostThree | src/pages/NewClient.tsx:68-86 | under the toggle guard (selected, or fewer than three selected) at most three goals stay selected |
| FormTypes.SelectedKeysWith | src/pages/NewClient.tsx:89-113 | replacing a goal with one of the same flag keeps the set of selected keys |
| FormTypes.EditsKeepSelection | src/pages/NewClient.tsx:89-113 | amount and years edits change neither the selected count nor which keys are selected |
| FormTypes.SelectedOfKeys | src/pages/NewClient.tsx:51 | over distinct keys, the filtered list has one entry per selected key |
| FormTypes.SelectedCountIsKeyCount | src/pages/NewClient.tsx:51-52 | the count computed from `Object.values` equals the number of selected keys |
| FormTypes.AllDetailedByKeys | src/pages/NewClient.tsx:56 | `every(goal => goal.amount && goal.years)` over the selected goals holds exactly when every selected key's goal has an amount and years |
| InitialState.InitialFormData | src/utils/initialState.ts:3-26 | every text field, every goal amount and years, and the other-goal description are empty; no goal is selected (count 0, no keys); no risk answer |
| JsParse.TrimStart | src/components/GoalSelector.tsx:31 | the leading white space the parsers skip: every character dropped is white space, and the suffix kept does not start with white space |
| JsParse.DigitRun | src/components/GoalSelector.tsx:37 | the longest run of digits at the start of the text |
| JsParse.DigitsValue | src/components/GoalSelector.tsx:37 | a digit string's value is below ten to the power of its length |
| JsParse.DigitsValueConcat | src/components/GoalSelector.tsx:37 | the value of digits `a` followed by digits `b` is `a`'s value times ten to the length of `b`, plus `b`'s value |
| JsParse.DigitRunOf | src/components/GoalSelector.tsx:37 | the digit run of digits followed by a non-digit is exactly those digits |
| JsParse.FractionValue | src/components/GoalSelector.tsx:31 | the digits after the decimal point are worth at least 0 and less than 1 |
| JsParse.DecimalValue | src/components/GoalSelector.tsx:31 | `i.f` lies between `i` and `i + 1` |
| JsParse.ParseInt | src/components/GoalSelector.tsx:37 | `parseInt("")` is NaN |
| JsParse.ParseFloat | src/components/GoalSelector.tsx:31 | `parseFloat("")` is NaN |
| JsParse.ParseIntDigits | src/components/GoalSelector.tsx:37 | digits followed by a non-digit parse to the digits' value |
| JsParse.ParseFloatDigits | src/components/GoalSelector.tsx:31 | a digit string parses to its value |
| JsParse.ParseFloatDecimal | src/components/GoalSelector.tsx:31 | `i.f` parses to its decimal value |
| JsParse.ParseIntNegative | src/components/GoalSelector.tsx:37 | a minus sign before digits gives the negated value |
| JsParse.ParseFloatNegative | src/components/GoalSelector.tsx:31 | a minus sign before digits gives the negated value |
| JsParse.IntOfTruncatesFloatOf | src/components/GoalSelector.tsx:31-37 | after white space and sign, an integer read implies a number read, and the integer is the number truncated toward zero |
| JsParse.ParseIntTruncatesParseFloat | src/components/GoalSelector.tsx:31-37 | whenever `parseInt` reads a number, `parseFloat` reads one too, and the integer is its truncation toward zero |
| GoalSelector.ValidateAmount | src/components/GoalSelector.tsx:30-34 | a forwarded amount is the typed text itself, unmodified and non-empty |
| GoalSelector.ValidateYears | src/components/GoalSelector.tsx:36-40 | a forwarded number of years is the typed text itself, unmodified and non-empty |
| GoalSelector.EmptyInputRejected | src/components/GoalSelector.tsx:31-32 | clearing either box parses to NaN and is not forwarded |
| GoalSelector.AmountAcceptsDigits | src/components/GoalSelector.tsx:30-34 | a whole number of rupees is forwarded as typed |
| GoalSelector.AmountAcceptsDecimals | src/components/GoalSelector.tsx:30-34 | a decimal amount `i.f` is forwarded as typed |
| GoalSelector.AmountRejectsNegative | src/components/GoalSelector.tsx:32 | a negative amount is forwarded only when its value is zero (negative zero is not below zero) |
| GoalSelector.YearsOnDigits | src/components/GoalSelector.tsx:36-40 | digits, then anything that is not a digit, are forwarded exactly when their value is 1 to 50 |
| GoalSelector.YearsRejectsNegative | src/components/GoalSelector.tsx:38 | a negative number of years is never forwarded |
| GoalSelector.YearsFilterWithinAmountFilter | src/components/GoalSelector.tsx:30-40 | text accepted as years would also be accepted as an amount |
| NavigationButtons.Rendered | src/components/NavigationButtons.tsx:22-53 | Previous exactly when the step is above 1; Submit exactly when the step is at or past the last; exactly one of Next and Submit |
| FormSubmission.Round | src/hooks/useFormSubmission.ts:17 | `Math.round` lands within one half of its argument, and on a tie (`x + 0.5` whole) it takes the upper integer |
| FormSubmission.RoundNearest | src/hooks/useFormSubmission.ts:17 | any integer within one half of `x`, the upper one on a tie, is `Round(x)`: the rounding is the unique nearest integer |
| FormSubmission.ToPaise | src/hooks/useFormSubmission.ts:17 | text that parses to NaN is stored as 0 paise |
| FormSubmission.StoredAge | src/hooks/useFormSubmission.ts:72 | an age that parses to NaN is stored as 0, and a parsed age is stored as `parseInt`'s value |
| FormSubmission.ClientName | src/hooks/useFormSubmission.ts:43 | the form's name if non-empty, else the account's full name, else "" |
| FormSubmission.StoredRisk | src/hooks/useFormSubmission.ts:81 | always one of low, medium and high: the chosen answer, or "medium" when none is chosen |
| FormSubmission.NewClientRowFor | src/hooks/useFormSubmission.ts:41-46 | the created client belongs to the user, is named by the name fallback, has the primary email or "" and an empty phone |
| FormSubmission.FormRowFor | src/hooks/useFormSubmission.ts:67-84 | the form row references the chosen client and the user, applies the name and risk fallbacks, stores the goals record as it is, copies city and occupation, stores the age as `StoredAge` and each of the eight money fields, column by column, as `ToPaise` of that field |
| FormSubmission.ChosenClient | src/hooks/useFormSubmission.ts:31-61 | the first client found is reused; otherwise the created client; none when creating it returned no row |
| FormSubmission.Submission | src/hooks/useFormSubmission.ts:9-13 | with no signed-in user, no result and no request; a result only when the form insert returned a row, and then it is that row's id |
| FormSubmission.SubmitForm | src/hooks/useFormSubmission.ts:9-104 | the staged run with early exits produces exactly the result and requests of `Submission` |
| FormSubmission.LookupFirst | src/hooks/useFormSubmission.ts:21-29 | for a signed-in user the client lookup is the first request, and a failed lookup ends the run with no result |
| FormSubmission.ReuseTrace | src/hooks/useFormSubmission.ts:33-35 | when clients are found, no client is created and the form row references the first one |
| FormSubmission.CreateTrace | src/hooks/useFormSubmission.ts:36-61 | when none is found and creation returns a row, the requests are the lookup, the client insert and the form insert for the new client |
| FormSubmission.ClientFailureStops | src/hooks/useFormSubmission.ts:50-57 | a failed or empty client insert ends the run with no result and no form insert |
| FormSubmission.ResultOnlyWhenAllStagesSucceed | src/hooks/useFormSubmission.ts:26-28 | there is a result exactly when the user is signed in, the lookup succeeded, a client was chosen and the form insert returned a row |
| FormSubmission.RoundWhole | src/hooks/useFormSubmission.ts:17 | rounding a whole number leaves it alone |
| FormSubmission.ToPaiseDigits | src/hooks/useFormSubmission.ts:17 | a whole number of rupees `n` typed as digits is stored as `n × 100` paise |
| FormSubmission.PaiseOfFraction | src/hooks/useFormSubmission.ts:17 | one or two decimals times one hundred are whole paise |
| FormSubmission.ToPaiseDecimal | src/hooks/useFormSubmission.ts:17 | rupees and up to two decimals convert exactly to paise |
| FormSubmission.StoredAgeDigits | src/hooks/useFormSubmission.ts:72 | an age typed as digits is stored as its value |
| FormSubmission.FormRowOfDigits | src/hooks/useFormSubmission.ts:72-74 | for a salary and an age typed as digits, the row's salary column is the salary times 100 paise and its age column is the age |
| NewClient.ValidateStep | src/pages/NewClient.tsx:29-66 | `validateStep`, defined by its source cases; its meaning is stated by `TextStepsNeedTheirFields`, `GoalStepNeedsThreeDetailedGoals`, `OtherStepsIgnoreTextEdit` and `OtherStepsIgnoreGoals` |
| NewClient.FieldStep | src/pages/NewClient.tsx:164-430 | every text input is on one of the steps 1, 2, 3 and 5 |
| NewClient.TextStepsNeedTheirFields | src/pages/NewClient.tsx:29-65 | steps 1, 2, 3 and 5 pass exactly when the inputs on that step are filled in (and, on step 5, a risk answer is chosen); any other step number passes |
| NewClient.GoalStepNeedsThreeDetailedGoals | src/pages/NewClient.tsx:50-56 | step 4 passes exactly when three goals are selected, each with an amount and years |
| NewClient.OtherStepsIgnoreTextEdit | src/pages/NewClient.tsx:29-65 | typing into an input of another step does not change a step's verdict |
| NewClient.OtherStepsIgnoreGoals | src/pages/NewClient.tsx:29-65 | goal edits only matter to step 4 |
| NewClient.InitialStateFailsSteps | src/utils/initialState.ts:3-26 | the initial record fails steps 1 and 4 |
| NewClient.NextStepOf | src/pages/NewClient.tsx:115-121 | the step stays in 1..5; it is unchanged when the step does not validate, and otherwise it is `min(step + 1, 5)` |
| NewClient.PrevStepOf | src/pages/NewClient.tsx:123 | `max(step - 1, 1)`: it is unchanged exactly on step 1 |
| NewClient.SubmitOnlyOnLastStep | src/components/NavigationButtons.tsx:33-53 | on the wizard's steps, Submit is shown only on step 5 and Next on every other step |
| NewClient.PreviousMovesBack | src/components/NavigationButtons.tsx:22-32 | Previous is shown exactly when going back changes the step |
| NewClient.NextAdvancesWhenRendered | src/pages/NewClient.tsx:115-121 | while Next is shown, it advances exactly when the step validates |
| NewClient.SubmitGateIgnoresEarlierSteps | src/pages/NewClient.tsx:125-131 | some record passes the submit gate while failing steps 1 and 4 |
| NewClient.VisibleEditKeepsEarlierSteps | src/pages/NewClient.tsx:164-430 | an edit through the inputs shown on the current step keeps every earlier step valid |
| NewClient.GoalAndRiskEditsKeepEarlierSteps | src/pages/NewClient.tsx:300-405 | goal edits on step 4 and the risk answer on step 5 keep every earlier step valid |
| NewClient.MovesKeepEarlierSteps | src/pages/NewClient.tsx:115-123 | if every step before the current one validates, it still does for the step reached by Next and for the step reached by Previous |
| NewClient.SubmitFromLastStepPassesAll | src/pages/NewClient.tsx:125-131 | at Submit, with earlier steps valid and the gate passed, every step validates |
| NewClient.Wizard.constructor | src/pages/NewClient.tsx:19-20 | the wizard starts on step 1 with the initial record; no earlier step is left to validate |
| NewClient.Wizard.HandleInputChange | src/pages/NewClient.tsx:24-27 | exactly the named text field changes; the step stays; an edit through an input shown on the current step keeps every earlier step valid |
| NewClient.Wizard.SetRiskTolerance | src/pages/NewClient.tsx:405 | only the risk answer changes; given on step 5, it keeps steps 1 to 4 valid |
| NewClient.Wizard.HandleGoalToggle | src/pages/NewClient.tsx:68-87 | a fourth selection is refused and changes nothing; an accepted toggle flips only that goal's flag; at most three stay selected; on step 4, it keeps steps 1 to 3 valid |
| NewClient.Wizard.HandleGoalAmountChange | src/pages/NewClient.tsx:89-100 | only the named goal's amount changes; on step 4, it keeps steps 1 to 3 valid |
| NewClient.Wizard.HandleGoalYearsChange | src/pages/NewClient.tsx:102-113 | only the named goal's years change; on step 4, it keeps steps 1 to 3 valid |
| NewClient.Wizard.GoalAmountInput | src/pages/NewClient.tsx:313 | text the amount filter rejects changes nothing; accepted text becomes the goal's amount; on step 4, it keeps steps 1 to 3 valid |
| NewClient.Wizard.GoalYearsInput | src/pages/NewClient.tsx:314 | text the years filter rejects changes nothing; accepted text becomes the goal's years; on step 4, it keeps steps 1 to 3 valid |
| NewClient.Wizard.NextStep | src/pages/NewClient.tsx:115-121 | the step becomes `NextStepOf`, and the record is unchanged; if every step before the old one validated, every step before the new one does |
| NewClient.Wizard.PrevStep | src/pages/NewClient.tsx:123 | the step becomes `PrevStepOf`, and the record is unchanged; if every step before the old one validated, every step before the new one does |
| NewClient.Wizard.HandleSubmit | src/pages/NewClient.tsx:125-136 | the record is submitted exactly when step 5 validates, and then the outcome is the submission pipeline's; submitted from step 5 with every earlier step valid, the record passes all five steps |
| ClientModal.CheckForm | src/components/ClientModal.tsx:75-105 | the reported failure is a check that fails, every earlier check passes, and `Passed` means no check fails |
| ClientModal.ValidateForm | src/components/ClientModal.tsx:75-105 | `validateForm` passes exactly when `CheckForm` reports no failure; its meaning is stated by `ValidateFormByChecks`, `ValidateFormExactly` and `WizardStepsImplyValidateForm` |
| ClientModal.ValidateFormByChecks | src/components/ClientModal.tsx:77-104 | the form passes exactly when none of the five checks fails, the `some` of a missing detail being the negation of `every` detail present |
| ClientModal.ValidateFormExactly | src/components/ClientModal.tsx:75-105 | the form passes exactly when the personal fields and the salary are filled in, three goals are selected, each with amount and years, and a risk answer and the monthly savings are given |
| ClientModal.ValidateFormIgnoresOtherFields | src/components/ClientModal.tsx:75-105 | side income, other income, bills, daily life, entertainment and emergency cash never affect the verdict |
| ClientModal.WizardStepsImplyValidateForm | src/components/ClientModal.tsx:75-105 | a record that passes every wizard step passes the single-page form |
| ClientModal.ValidateFormIsWeaker | src/components/ClientModal.tsx:82-85 | clearing the side income of such a record keeps it acceptable here, while the wizard's step 2 refuses it |
| ClientModal.InitialFormMissesPersonal | src/components/ClientModal.tsx:77-80 | an untouched form is refused first for its personal details |
| ClientModal.ClientForm.constructor | src/components/ClientModal.tsx:20 | the form opens on the initial record |
| ClientModal.ClientForm.HandleInputChange | src/components/ClientModal.tsx:23-26 | exactly the named text field changes |
| ClientModal.ClientForm.SetRiskTolerance | src/components/ClientModal.tsx:331 | only the risk answer changes |
| ClientModal.ClientForm.HandleGoalToggle | src/components/ClientModal.tsx:28-47 | a fourth selection is refused and changes nothing; an accepted toggle flips only that goal's flag; at most three stay selected |
| ClientModal.ClientForm.HandleGoalAmountChange | src/components/ClientModal.tsx:49-60 | only the named goal's amount changes |
| ClientModal.ClientForm.HandleGoalYearsChange | src/components/ClientModal.tsx:62-73 | only the named goal's years change |
| ClientModal.ClientForm.GoalAmountInput | src/components/ClientModal.tsx:273 | text the amount filter rejects changes nothing; accepted text becomes the goal's amount |
| ClientModal.ClientForm.GoalYearsInput | src/components/ClientModal.tsx:274 | text the years filter rejects changes nothing; accepted text becomes the goal's years |
| ClientModal.ClientForm.HandleSubmit | src/components/ClientModal.tsx:107-114 | the record is submitted exactly when `validateForm` passes, and then the outcome is the submission pipeline's |
| NewForm.Patched | src/pages/NewForm.tsx:59 | `{ ...f, ...field }`, key by key; its laws are `PatchLaws` and `SingleKeyPatches` |
| NewForm.PatchLaws | src/pages/NewForm.tsx:59 | `{...f, ...patch}` with no keys is `f`, and applying a patch twice is applying it once |
| NewForm.SingleKeyPatches | src/pages/NewForm.tsx:122-145 | each input's edit overwrites only its own key |
| NewForm.UpdatedAt | src/pages/NewForm.tsx:55-62 | the length is kept, every other position is unchanged, and the position `index` gets the patched field |
| NewForm.RemovedAt | src/pages/NewForm.tsx:64-69 | an in-range position gives `s[..i] + s[i+1..]`, keeping order; any other index leaves the list unchanged |
| NewForm.UpdateOutOfRange | src/pages/NewForm.tsx:58-60 | an edit at a position outside the list leaves it unchanged |
| NewForm.AddThenRemove | src/pages/NewForm.tsx:48-69 | adding a field, then removing the last position, restores the list |
| NewForm.RemoveKeepsOthers | src/pages/NewForm.tsx:64-69 | removal shortens the list by one and shifts only the later fields |
| NewForm.FormEditor.constructor | src/pages/NewForm.tsx:10-14 | the builder starts empty |
| NewForm.FormEditor.SetTitle | src/pages/NewForm.tsx:86 | only the title changes |
| NewForm.FormEditor.SetDescription | src/pages/NewForm.tsx:97 | only the description changes |
| NewForm.FormEditor.AddField | src/pages/NewForm.tsx:48-53 | a blank text field is appended, and earlier fields are unchanged |
| NewForm.FormEditor.UpdateField | src/pages/NewForm.tsx:55-62 | the fields become `UpdatedAt(old fields, index, patch)` |
| NewForm.FormEditor.RemoveField | src/pages/NewForm.tsx:64-69 | the fields become `RemovedAt(old fields, index)` |
| NewForm.FormEditor.HandleSubmit | src/pages/NewForm.tsx:16-36 | with no signed-in user nothing is stored; otherwise the title, description and fields are stored under the user's id |

## Left out

- Network and account services are not modelled. This covers the
  database client, the sign-in provider and the module-load connection
  test. The database's replies are inputs to `Submission` and
  `SubmitForm`. The form builder's insert is returned as a value, and
  its reply is not modelled because it only chooses a toast and a
  navigation.
- Toasts, alerts, console logging, `navigate` calls, animation and React
  re-rendering are left out. For `validateForm` the model keeps only which
  check failed.
- JsParse: `parseInt` and `parseFloat` cover ASCII white space, a sign,
  decimal digits and, for `parseFloat`, a decimal fraction. They do not
  model:
  - exponents, `Infinity` and the `0x` prefix `parseInt` accepts;
  - Unicode white space;
  - IEEE double rounding. Numbers are exact integers and reals, while
    the source's `parseInt` and `parseFloat` return doubles, which hold
    every integer only below 2^53. So `ToPaise` rounds the exact product,
    which need not equal the rounded double product on inputs with more
    than two decimals, on amounts with decimals of 2^50 paise (about
    1.1 × 10^13 rupees) or more, and on whole amounts of 2^53 paise or
    more. A digit string worth 2^53 or more need not parse to its exact
    value.
- FormSubmission.ToPaiseDigits and FormSubmission.FormRowOfDigits: they
  are known to match the source only for amounts below 2^53 paise,
  because the source multiplies and rounds doubles.
- FormSubmission.ToPaiseDecimal: it is known to match the source only
  for amounts below 2^50 paise. For larger amounts, the double nearest to
  `i.f`, times 100, can land on a half and round away from the exact
  paise.
- FormSubmission.StoredAgeDigits and FormSubmission.StoredAge: the stored
  age is `parseInt`'s exact value. The source's double is known to match
  it only below 2^53.
- ClientModal.ClientForm.HandleSubmit and NewForm.FormEditor.HandleSubmit:
  the model starts at the handler. Both views call it from a
  `<form onSubmit>` (src/components/ClientModal.tsx:144,
  src/pages/NewForm.tsx:77). The browser's own constraint check runs
  first: `required`, and the goal boxes' `min`, `max` and default `step`
  of 1 (src/components/GoalSelector.tsx:62-81). That check is not
  modelled, so the model admits submissions the browser would block:
  - an empty title never reaches the form builder's insert
    (src/pages/NewForm.tsx:83-84);
  - the single-page form never submits a fractional goal amount or
    years, nor years above 50.
  The wizard is not affected: its Submit is a button `onClick`, and its
  form's `onSubmit` only prevents the default.
- FormSubmission.ToPaise: its own contract states only that NaN is stored
  as 0. The exact value is proved only for digit strings
  (`ToPaiseDigits`) and for up to two decimals (`ToPaiseDecimal`).
- JsParse.ParseInt: its own contract states only that "" is NaN. The
  value read is stated by `ParseIntDigits` and `ParseIntNegative` for
  digits, with or without a minus sign.
- JsParse.ParseFloat: its own contract states only that "" is NaN. The
  value read is stated by `ParseFloatDigits`, `ParseFloatDecimal` and
  `ParseFloatNegative`.
- GoalSelector.ValidateAmount: its own contract says what is forwarded,
  not when. When is stated by `AmountAcceptsDigits`,
  `AmountAcceptsDecimals` and `AmountRejectsNegative` for those input
  forms.
- GoalSelector.ValidateYears: its own contract says what is forwarded,
  not when. When is stated by `YearsOnDigits` and `YearsRejectsNegative`
  for those input forms.
- Only the rule for which `FormStep` is visible is modelled: a step's
  inputs are shown only on that step (src/pages/NewClient.tsx:164-430).
  `FormStep` itself is not part of this model.
- The single-page form renders goal selectors for only five of the seven
  goals (src/components/ClientModal.tsx:266-318). Its handlers accept
  every key, and the model keeps that.
- The `other` goal's description is kept as `Goals.otherDescription`.
  No handler writes it, and no description box is wired up.
- `useSupabaseSync`, the Dashboard, Analytics, `FormPage`, routing and the
  sign-in page are outside this core.
- `FormRowFor` stores the whole goals record, selected goals or not
  (src/hooks/useFormSubmission.ts:80), not only the three selected goals.
- The wizard's submit gate rechecks only step 5
  (src/pages/NewClient.tsx:125-131, `SubmitGateIgnoresEarlierSteps`), so
  the three-goal rule is not checked again at submission. Used through its
  visible inputs, the wizard still reaches Submit with every step valid:
  each `Wizard` handler keeps "every earlier step validates", and
  `Wizard.HandleSubmit` concludes that all five steps pass.
