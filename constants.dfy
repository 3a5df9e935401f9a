/** Constants shared by the intake views (src/constants.ts). */
module Constants {
  /** The titles of the five wizard steps; the wizard has one step per title. */
  const StepTitles: seq<string> := [
    "Getting to Know You",
    "Your Money Story",
    "Monthly Expenses",
    "Financial Goals",
    "Investment Style"
  ]

  /** `STEP_TITLES.length`, the number of the wizard's last step. */
  const TotalSteps: int := |StepTitles|

  /** Both intake views insist on this many selected goals. */
  const RequiredGoals: int := 3
}
