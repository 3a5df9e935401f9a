/** The record a freshly mounted intake view starts from (src/utils/initialState.ts). */
module InitialState {
  import opened FormTypes

  const EmptyGoal: Goal := Goal(false, "", "")

  function InitialFormData(): (f: FormData)
    ensures forall k :: TextOf(f, k) == ""
    ensures f.riskTolerance == Unset
    ensures forall k :: GoalOf(f.goals, k) == Goal(false, "", "")
    ensures f.goals.otherDescription == ""
    ensures SelectedCount(f.goals) == 0 && SelectedKeys(f.goals) == {}
  {
    FormData(
      "", "", "", "",
      "", "", "",
      "", "", "",
      Goals(EmptyGoal, EmptyGoal, EmptyGoal, EmptyGoal, EmptyGoal, EmptyGoal, EmptyGoal, ""),
      Unset, "", "")
  }
}
