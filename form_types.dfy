/**
 * The client-intake record (src/types/form.ts) and the key-wise updates that
 * both intake views apply to it. Every value is a string as typed by the user;
 * JavaScript truthiness of a string is "non-empty", so "0" counts as filled in.
 */
module FormTypes {
  import opened Constants

  /** A string is truthy in JavaScript exactly when it is not empty. */
  predicate Truthy(s: string) {
    s != ""
  }

  /** The fixed key set of `FormData.goals`, in declaration order. */
  datatype GoalKey = DreamHome | Education | Retirement | Business | Vacation | Wedding | Other

  const AllKeys: seq<GoalKey> := [DreamHome, Education, Retirement, Business, Vacation, Wedding, Other]

  datatype Goal = Goal(selected: bool, amount: string, years: string)

  /**
   * The goals object. The source keeps the free-text description inside the
   * `other` entry; here it is the separate field `otherDescription`.
   */
  datatype Goals = Goals(
    dreamHome: Goal,
    education: Goal,
    retirement: Goal,
    business: Goal,
    vacation: Goal,
    wedding: Goal,
    other: Goal,
    otherDescription: string)

  /** `'low' | 'medium' | 'high' | ''` */
  datatype RiskTolerance = Unset | Low | Medium | High

  function RiskText(r: RiskTolerance): (s: string)
    ensures Truthy(s) <==> r != Unset
  {
    match r
    case Unset => ""
    case Low => "low"
    case Medium => "medium"
    case High => "high"
  }

  datatype FormData = FormData(
    name: string,
    city: string,
    age: string,
    occupation: string,
    salary: string,
    sideIncome: string,
    otherIncome: string,
    bills: string,
    dailyLife: string,
    entertainment: string,
    goals: Goals,
    riskTolerance: RiskTolerance,
    monthlySavings: string,
    emergencyCash: string)

  /** The `name` attributes of the text inputs wired to `handleInputChange`. */
  datatype TextField =
    | Name | City | Age | Occupation
    | Salary | SideIncome | OtherIncome
    | Bills | DailyLife | Entertainment
    | MonthlySavings | EmergencyCash

  function TextOf(f: FormData, k: TextField): string {
    match k
    case Name => f.name
    case City => f.city
    case Age => f.age
    case Occupation => f.occupation
    case Salary => f.salary
    case SideIncome => f.sideIncome
    case OtherIncome => f.otherIncome
    case Bills => f.bills
    case DailyLife => f.dailyLife
    case Entertainment => f.entertainment
    case MonthlySavings => f.monthlySavings
    case EmergencyCash => f.emergencyCash
  }

  /** `{ ...prev, [name]: value }`: exactly one text field is replaced. */
  function WithText(f: FormData, k: TextField, v: string): (r: FormData)
    ensures TextOf(r, k) == v
    ensures forall k' :: k' != k ==> TextOf(r, k') == TextOf(f, k')
    ensures r.goals == f.goals && r.riskTolerance == f.riskTolerance
  {
    match k
    case Name => f.(name := v)
    case City => f.(city := v)
    case Age => f.(age := v)
    case Occupation => f.(occupation := v)
    case Salary => f.(salary := v)
    case SideIncome => f.(sideIncome := v)
    case OtherIncome => f.(otherIncome := v)
    case Bills => f.(bills := v)
    case DailyLife => f.(dailyLife := v)
    case Entertainment => f.(entertainment := v)
    case MonthlySavings => f.(monthlySavings := v)
    case EmergencyCash => f.(emergencyCash := v)
  }

  function GoalOf(g: Goals, k: GoalKey): Goal {
    match k
    case DreamHome => g.dreamHome
    case Education => g.education
    case Retirement => g.retirement
    case Business => g.business
    case Vacation => g.vacation
    case Wedding => g.wedding
    case Other => g.other
  }

  /** `{ ...prev.goals, [goalName]: v }`: exactly one goal entry is replaced. */
  function WithGoal(g: Goals, k: GoalKey, v: Goal): (r: Goals)
    ensures GoalOf(r, k) == v
    ensures forall k' :: k' != k ==> GoalOf(r, k') == GoalOf(g, k')
    ensures r.otherDescription == g.otherDescription
  {
    match k
    case DreamHome => g.(dreamHome := v)
    case Education => g.(education := v)
    case Retirement => g.(retirement := v)
    case Business => g.(business := v)
    case Vacation => g.(vacation := v)
    case Wedding => g.(wedding := v)
    case Other => g.(other := v)
  }

  /** The goal update of `handleGoalToggle` once the toggle is accepted. */
  function Toggled(g: Goals, k: GoalKey): (r: Goals)
    ensures GoalOf(r, k) == GoalOf(g, k).(selected := !GoalOf(g, k).selected)
    ensures forall j :: j != k ==> GoalOf(r, j) == GoalOf(g, j)
    ensures r.otherDescription == g.otherDescription
  {
    WithGoal(g, k, GoalOf(g, k).(selected := !GoalOf(g, k).selected))
  }

  /** The goal update of `handleGoalAmountChange`. */
  function WithAmount(g: Goals, k: GoalKey, v: string): Goals {
    WithGoal(g, k, GoalOf(g, k).(amount := v))
  }

  /** The goal update of `handleGoalYearsChange`. */
  function WithYears(g: Goals, k: GoalKey, v: string): Goals {
    WithGoal(g, k, GoalOf(g, k).(years := v))
  }

  /** The position of a key in `Object.values(goals)`. */
  function KeyIndex(k: GoalKey): (i: nat)
    ensures i < |AllKeys| && AllKeys[i] == k
  {
    match k
    case DreamHome => 0
    case Education => 1
    case Retirement => 2
    case Business => 3
    case Vacation => 4
    case Wedding => 5
    case Other => 6
  }

  /** `Object.values(goals)` */
  function GoalValues(g: Goals): (s: seq<Goal>)
    ensures |s| == |AllKeys|
    ensures forall k :: s[KeyIndex(k)] == GoalOf(g, k)
  {
    [g.dreamHome, g.education, g.retirement, g.business, g.vacation, g.wedding, g.other]
  }

  /** `.filter(goal => goal.selected)` */
  function SelectedOf(s: seq<Goal>): (r: seq<Goal>)
    ensures |r| <= |s|
    ensures forall x :: x in r <==> x in s && x.selected
  {
    if s == [] then []
    else if s[0].selected then [s[0]] + SelectedOf(s[1..])
    else SelectedOf(s[1..])
  }

  /** The filter keeps each selected goal exactly as many times as it occurs, and no other goal. */
  lemma {:induction false} SelectedOfMultiplicity(s: seq<Goal>)
    ensures forall x :: multiset(SelectedOf(s))[x] == if x.selected then multiset(s)[x] else 0
  {
    if s != [] {
      assert s == [s[0]] + s[1..];
      SelectedOfMultiplicity(s[1..]);
    }
  }

  function SelectedGoals(g: Goals): seq<Goal> {
    SelectedOf(GoalValues(g))
  }

  /** `Object.values(goals).filter(goal => goal.selected).length` */
  function SelectedCount(g: Goals): nat {
    |SelectedGoals(g)|
  }

  /** The keys whose goal is selected: an order-free account of the selection. */
  function SelectedKeys(g: Goals): set<GoalKey> {
    set k | k in AllKeys && GoalOf(g, k).selected
  }

  /** `every(goal => goal.amount && goal.years)` */
  predicate AllDetailed(s: seq<Goal>) {
    forall i :: 0 <= i < |s| ==> Truthy(s[i].amount) && Truthy(s[i].years)
  }

  function Indicator(b: bool): int {
    if b then 1 else 0
  }

  /** Replacing one goal changes the filtered count by the change of its own flag. */
  lemma {:induction false} SelectedOfUpdate(s: seq<Goal>, i: nat, x: Goal)
    requires i < |s|
    ensures |SelectedOf(s[i := x])| == |SelectedOf(s)| - Indicator(s[i].selected) + Indicator(x.selected)
  {
    if i == 0 {
      assert s[i := x][1..] == s[1..];
    } else {
      assert s[i := x][1..] == s[1..][i - 1 := x];
      SelectedOfUpdate(s[1..], i - 1, x);
    }
  }

  lemma GoalValuesWith(g: Goals, k: GoalKey, v: Goal)
    ensures GoalValues(WithGoal(g, k, v)) == GoalValues(g)[KeyIndex(k) := v]
  {
  }

  /** Replacing a goal without touching its flag keeps the selected count. */
  lemma SelectedCountWith(g: Goals, k: GoalKey, v: Goal)
    ensures SelectedCount(WithGoal(g, k, v))
         == SelectedCount(g) - Indicator(GoalOf(g, k).selected) + Indicator(v.selected)
  {
    GoalValuesWith(g, k, v);
    SelectedOfUpdate(GoalValues(g), KeyIndex(k), v);
  }

  /** Toggling moves the selected count by exactly one, in the direction of the flip. */
  lemma ToggleCount(g: Goals, k: GoalKey)
    ensures SelectedCount(Toggled(g, k))
         == if GoalOf(g, k).selected then SelectedCount(g) - 1 else SelectedCount(g) + 1
  {
    SelectedCountWith(g, k, GoalOf(g, k).(selected := !GoalOf(g, k).selected));
  }

  /** Toggling the same goal twice restores the goals. */
  lemma ToggleInvolution(g: Goals, k: GoalKey)
    ensures Toggled(Toggled(g, k), k) == g
  {
  }

  /**
   * The toggle rule of both views: a goal that is not selected may be
   * selected only while fewer than three are; under that rule the
   * at-most-three invariant survives every toggle.
   */
  lemma ToggleKeepsAtMostThree(g: Goals, k: GoalKey)
    requires SelectedCount(g) <= RequiredGoals
    requires GoalOf(g, k).selected || SelectedCount(g) < RequiredGoals
    ensures SelectedCount(Toggled(g, k)) <= RequiredGoals
  {
    ToggleCount(g, k);
  }

  /** Replacing a goal with one of the same flag keeps the set of selected keys. */
  lemma SelectedKeysWith(g: Goals, k: GoalKey, v: Goal)
    requires v.selected == GoalOf(g, k).selected
    ensures SelectedKeys(WithGoal(g, k, v)) == SelectedKeys(g)
  {
    var g' := WithGoal(g, k, v);
    forall k' ensures GoalOf(g', k').selected == GoalOf(g, k').selected {
    }
  }

  /** Amount and years edits never change which goals are selected. */
  lemma EditsKeepSelection(g: Goals, k: GoalKey, v: string)
    ensures SelectedCount(WithAmount(g, k, v)) == SelectedCount(g)
    ensures SelectedCount(WithYears(g, k, v)) == SelectedCount(g)
    ensures SelectedKeys(WithAmount(g, k, v)) == SelectedKeys(g)
    ensures SelectedKeys(WithYears(g, k, v)) == SelectedKeys(g)
  {
    SelectedCountWith(g, k, GoalOf(g, k).(amount := v));
    SelectedCountWith(g, k, GoalOf(g, k).(years := v));
    SelectedKeysWith(g, k, GoalOf(g, k).(amount := v));
    SelectedKeysWith(g, k, GoalOf(g, k).(years := v));
  }

  /** The filtered list of goals has one entry per selected key. */
  lemma {:induction false} SelectedOfKeys(g: Goals, ks: seq<GoalKey>)
    requires forall i, j :: 0 <= i < j < |ks| ==> ks[i] != ks[j]
    ensures |SelectedOf(seq(|ks|, i requires 0 <= i < |ks| => GoalOf(g, ks[i])))|
         == |set k | k in ks && GoalOf(g, k).selected|
  {
    var vals := seq(|ks|, i requires 0 <= i < |ks| => GoalOf(g, ks[i]));
    if ks == [] {
      assert (set k | k in ks && GoalOf(g, k).selected) == {};
    } else {
      var tail := ks[1..];
      var tailVals := seq(|tail|, i requires 0 <= i < |tail| => GoalOf(g, tail[i]));
      assert vals[1..] == tailVals;
      SelectedOfKeys(g, tail);
      var all := set k | k in ks && GoalOf(g, k).selected;
      var rest := set k | k in tail && GoalOf(g, k).selected;
      assert ks[0] !in rest;
      if GoalOf(g, ks[0]).selected {
        assert all == {ks[0]} + rest;
      } else {
        assert all == rest;
      }
    }
  }

  /** The count the views compute from `Object.values` equals the number of selected keys. */
  lemma SelectedCountIsKeyCount(g: Goals)
    ensures SelectedCount(g) == |SelectedKeys(g)|
  {
    var vals := seq(|AllKeys|, i requires 0 <= i < |AllKeys| => GoalOf(g, AllKeys[i]));
    assert vals == GoalValues(g);
    SelectedOfKeys(g, AllKeys);
  }

  /** A selected key's goal is among the filtered goals. */
  lemma SelectedGoalListed(g: Goals, k: GoalKey)
    requires GoalOf(g, k).selected
    ensures GoalOf(g, k) in SelectedGoals(g)
  {
    assert GoalValues(g)[KeyIndex(k)] == GoalOf(g, k);
  }

  /** Every filtered goal is the goal of some selected key. */
  lemma ListedGoalSelected(g: Goals, x: Goal)
    requires x in SelectedGoals(g)
    ensures exists k :: GoalOf(g, k) == x && x.selected
  {
    var j :| 0 <= j < |AllKeys| && GoalValues(g)[j] == x;
    assert GoalValues(g)[KeyIndex(AllKeys[j])] == GoalOf(g, AllKeys[j]);
  }

  /** Every selected goal has its details exactly when every selected key's goal does. */
  lemma AllDetailedByKeys(g: Goals)
    ensures AllDetailed(SelectedGoals(g))
        <==> forall k :: GoalOf(g, k).selected ==> Truthy(GoalOf(g, k).amount) && Truthy(GoalOf(g, k).years)
  {
    var sel := SelectedGoals(g);
    if AllDetailed(sel) {
      forall k | GoalOf(g, k).selected
        ensures Truthy(GoalOf(g, k).amount) && Truthy(GoalOf(g, k).years)
      {
        SelectedGoalListed(g, k);
      }
    }
    if forall k :: GoalOf(g, k).selected ==> Truthy(GoalOf(g, k).amount) && Truthy(GoalOf(g, k).years) {
      forall i | 0 <= i < |sel|
        ensures Truthy(sel[i].amount) && Truthy(sel[i].years)
      {
        ListedGoalSelected(g, sel[i]);
      }
    }
  }
}
