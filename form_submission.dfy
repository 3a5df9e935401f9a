/**
 * The submission pipeline of src/hooks/useFormSubmission.ts. The hosted
 * database is replaced by its replies, given as inputs: the reply to the
 * client lookup, to the client insert and to the form insert. The pipeline
 * returns the requests it issued, in order, so that "no later stage runs"
 * is a statement about that list.
 */
module FormSubmission {
  import opened Wrappers
  import opened FormTypes
  import opened JsParse

  type Id = string

  /** The signed-in user as the identity provider describes it. */
  datatype User = User(id: Id, fullName: Option<string>, primaryEmail: Option<string>)

  /** A database reply: an error, success without a row, or a row. */
  datatype Reply<T> = Failure(message: string) | NoData | Data(value: T)

  datatype ClientRecord = ClientRecord(id: Id, userId: Id)

  /** The row inserted into `clients`. */
  datatype NewClientRow = NewClientRow(userId: Id, name: string, email: string, phone: string)

  /** The row inserted into `client_forms`; money is in paise. */
  datatype FormRow = FormRow(
    clientId: Id,
    userId: Id,
    name: string,
    city: string,
    age: int,
    occupation: string,
    monthlySalary: int,
    monthlySideIncome: int,
    monthlyOtherIncome: int,
    monthlyBills: int,
    monthlyDailyLife: int,
    monthlyEntertainment: int,
    financialGoals: Goals,
    riskTolerance: string,
    monthlySavings: int,
    emergencyCash: int)

  datatype DbCall =
    | SelectClients(ownerId: Id)
    | InsertClient(client: NewClientRow)
    | InsertForm(form: FormRow)

  /** JavaScript's `a || b` on strings. */
  function Or(a: string, b: string): string {
    if Truthy(a) then a else b
  }

  /** `x || ''` for a string that may be null. */
  function OrEmpty(o: Option<string>): string {
    match o
    case Some(s) => s
    case None => ""
  }

  /** `Math.round`: to the nearest integer, halves upward. */
  function Round(x: real): (n: int)
    ensures x - 0.5 < n as real <= x + 0.5
  {
    (x + 0.5).Floor
  }

  /** Only one integer lies within a half of `x`, the larger one on a tie: it is `Round(x)`. */
  lemma RoundNearest(x: real, m: int)
    requires x - 0.5 < m as real <= x + 0.5
    ensures m == Round(x)
  {
  }

  /** `Math.round(parseFloat(amount) * 100) || 0`: rupees as text to whole paise. */
  function ToPaise(amount: string): (paise: int)
    ensures ParseFloat(amount).None? ==> paise == 0
  {
    match ParseFloat(amount)
    case None => 0
    case Some(x) => Round(x * 100.0)
  }

  /** `parseInt(formData.age) || 0` */
  function StoredAge(age: string): (years: int)
    ensures ParseInt(age).None? ==> years == 0
    ensures ParseInt(age).Some? ==> years == ParseInt(age).value
  {
    match ParseInt(age)
    case None => 0
    case Some(v) => v
  }

  /** `formData.name || user.fullName || ''` */
  function ClientName(user: User, form: FormData): (name: string)
    ensures Truthy(form.name) ==> name == form.name
    ensures !Truthy(form.name) && user.fullName.Some? ==> name == user.fullName.value
    ensures !Truthy(form.name) && user.fullName.None? ==> name == ""
  {
    Or(form.name, OrEmpty(user.fullName))
  }

  /** `formData.riskTolerance || 'medium'` */
  function StoredRisk(r: RiskTolerance): (s: string)
    ensures s in {"low", "medium", "high"}
    ensures r != Unset ==> s == RiskText(r)
    ensures r == Unset ==> s == "medium"
  {
    Or(RiskText(r), "medium")
  }

  /** The `clients` row created when the user has none: named by the form, else the account. */
  function NewClientRowFor(user: User, form: FormData): (row: NewClientRow)
    ensures row.userId == user.id && row.name == ClientName(user, form) && row.phone == ""
    ensures user.primaryEmail.Some? ==> row.email == user.primaryEmail.value
    ensures user.primaryEmail.None? ==> row.email == ""
  {
    NewClientRow(user.id, ClientName(user, form), OrEmpty(user.primaryEmail), "")
  }

  /**
   * The `client_forms` row: it references the chosen client and the user,
   * stores the goals record as it is, and money columns in paise.
   */
  function FormRowFor(clientId: Id, user: User, form: FormData): (row: FormRow)
    ensures row.clientId == clientId && row.userId == user.id
    ensures row.name == ClientName(user, form) && row.riskTolerance == StoredRisk(form.riskTolerance)
    ensures row.financialGoals == form.goals
    ensures row.city == form.city && row.occupation == form.occupation && row.age == StoredAge(form.age)
    ensures row.monthlySalary == ToPaise(form.salary)
    ensures row.monthlySideIncome == ToPaise(form.sideIncome)
    ensures row.monthlyOtherIncome == ToPaise(form.otherIncome)
    ensures row.monthlyBills == ToPaise(form.bills)
    ensures row.monthlyDailyLife == ToPaise(form.dailyLife)
    ensures row.monthlyEntertainment == ToPaise(form.entertainment)
    ensures row.monthlySavings == ToPaise(form.monthlySavings)
    ensures row.emergencyCash == ToPaise(form.emergencyCash)
  {
    FormRow(
      clientId,
      user.id,
      ClientName(user, form),
      form.city,
      StoredAge(form.age),
      form.occupation,
      ToPaise(form.salary),
      ToPaise(form.sideIncome),
      ToPaise(form.otherIncome),
      ToPaise(form.bills),
      ToPaise(form.dailyLife),
      ToPaise(form.entertainment),
      form.goals,
      StoredRisk(form.riskTolerance),
      ToPaise(form.monthlySavings),
      ToPaise(form.emergencyCash))
  }

  /** The lookup found clients of this user, so the first one is reused. */
  predicate ReusesClient(lookup: Reply<seq<ClientRecord>>) {
    lookup.Data? && |lookup.value| > 0
  }

  /**
   * The client the form row will reference: the first client found for the
   * user, else the one just created; `None` when creating it failed.
   */
  function ChosenClient(lookup: Reply<seq<ClientRecord>>, clientInsert: Reply<ClientRecord>): (id: Option<Id>)
    ensures ReusesClient(lookup) ==> id == Some(lookup.value[0].id)
    ensures !ReusesClient(lookup) && clientInsert.Data? ==> id == Some(clientInsert.value.id)
    ensures !ReusesClient(lookup) && !clientInsert.Data? ==> id == None
  {
    if ReusesClient(lookup) then Some(lookup.value[0].id)
    else if clientInsert.Data? then Some(clientInsert.value.id)
    else None
  }

  /** What one run of `submitForm` returns, and the requests it issued, in order. */
  datatype Outcome = Outcome(result: Option<Id>, calls: seq<DbCall>)

  /**
   * The run of `submitForm` as a function of the database's replies: look
   * the user's clients up, reuse the first or create one, then insert the
   * form row. Any failure ends the run with no result.
   */
  function Submission(
    user: Option<User>,
    form: FormData,
    lookup: Reply<seq<ClientRecord>>,
    clientInsert: Reply<ClientRecord>,
    formInsert: Reply<Id>): (o: Outcome)
    ensures user.None? ==> o == Outcome(None, [])
    ensures o.result.Some? ==> formInsert.Data? && o.result.value == formInsert.value
  {
    if user.None? then Outcome(None, [])
    else
      var select := [SelectClients(user.value.id)];
      if lookup.Failure? then Outcome(None, select)
      else
        var resolved :=
          if ReusesClient(lookup) then select
          else select + [InsertClient(NewClientRowFor(user.value, form))];
        match ChosenClient(lookup, clientInsert)
        case None => Outcome(None, resolved)
        case Some(id) =>
          var calls := resolved + [InsertForm(FormRowFor(id, user.value, form))];
          if formInsert.Data? then Outcome(Some(formInsert.value), calls) else Outcome(None, calls)
  }

  /**
   * `submitForm`, stage by stage with early returns. `result` is the id of
   * the stored form row.
   */
  method SubmitForm(
    user: Option<User>,
    form: FormData,
    lookup: Reply<seq<ClientRecord>>,
    clientInsert: Reply<ClientRecord>,
    formInsert: Reply<Id>)
    returns (result: Option<Id>, calls: seq<DbCall>)
    ensures Outcome(result, calls) == Submission(user, form, lookup, clientInsert, formInsert)
  {
    if user.None? {
      return None, [];
    }
    calls := [SelectClients(user.value.id)];
    if lookup.Failure? {
      return None, calls;
    }
    var clientId: Id;
    if lookup.Data? && |lookup.value| > 0 {
      clientId := lookup.value[0].id;
    } else {
      calls := calls + [InsertClient(NewClientRowFor(user.value, form))];
      if !clientInsert.Data? {
        return None, calls;
      }
      clientId := clientInsert.value.id;
    }
    calls := calls + [InsertForm(FormRowFor(clientId, user.value, form))];
    if !formInsert.Data? {
      return None, calls;
    }
    result := Some(formInsert.value);
  }

  /** The lookup always comes first, and a failed lookup ends the run. */
  lemma LookupFirst(
    user: User, form: FormData, lookup: Reply<seq<ClientRecord>>,
    clientInsert: Reply<ClientRecord>, formInsert: Reply<Id>)
    ensures var o := Submission(Some(user), form, lookup, clientInsert, formInsert);
      |o.calls| >= 1 && o.calls[0] == SelectClients(user.id) &&
      (lookup.Failure? ==> o == Outcome(None, [SelectClients(user.id)]))
  {
  }

  /**
   * When the lookup finds clients, the first is reused: no client is
   * created and the form row references that client.
   */
  lemma ReuseTrace(
    user: User, form: FormData, lookup: Reply<seq<ClientRecord>>,
    clientInsert: Reply<ClientRecord>, formInsert: Reply<Id>)
    requires ReusesClient(lookup)
    ensures Submission(Some(user), form, lookup, clientInsert, formInsert).calls ==
      [SelectClients(user.id), InsertForm(FormRowFor(lookup.value[0].id, user, form))]
  {
    var select, insert := SelectClients(user.id), InsertForm(FormRowFor(lookup.value[0].id, user, form));
    assert Submission(Some(user), form, lookup, clientInsert, formInsert).calls == [select] + [insert];
    Pair(select, insert);
  }

  /**
   * When the lookup succeeds but finds no client, one is created with the
   * row `NewClientRowFor` builds, and the form row references the new client.
   */
  lemma CreateTrace(
    user: User, form: FormData, lookup: Reply<seq<ClientRecord>>,
    clientInsert: Reply<ClientRecord>, formInsert: Reply<Id>)
    requires !lookup.Failure? && !ReusesClient(lookup) && clientInsert.Data?
    ensures Submission(Some(user), form, lookup, clientInsert, formInsert).calls ==
      [SelectClients(user.id), InsertClient(NewClientRowFor(user, form)),
       InsertForm(FormRowFor(clientInsert.value.id, user, form))]
  {
    var select, create := SelectClients(user.id), InsertClient(NewClientRowFor(user, form));
    var insert := InsertForm(FormRowFor(clientInsert.value.id, user, form));
    assert Submission(Some(user), form, lookup, clientInsert, formInsert).calls == [select] + [create] + [insert];
    Triple(select, create, insert);
  }

  /** A failed client creation ends the run after it. */
  lemma ClientFailureStops(
    user: User, form: FormData, lookup: Reply<seq<ClientRecord>>,
    clientInsert: Reply<ClientRecord>, formInsert: Reply<Id>)
    requires !lookup.Failure? && !ReusesClient(lookup) && !clientInsert.Data?
    ensures Submission(Some(user), form, lookup, clientInsert, formInsert) ==
      Outcome(None, [SelectClients(user.id), InsertClient(NewClientRowFor(user, form))])
  {
  }

  /** A result exactly when every stage succeeded. */
  lemma ResultOnlyWhenAllStagesSucceed(
    user: Option<User>, form: FormData, lookup: Reply<seq<ClientRecord>>,
    clientInsert: Reply<ClientRecord>, formInsert: Reply<Id>)
    ensures Submission(user, form, lookup, clientInsert, formInsert).result.Some? <==>
      user.Some? && !lookup.Failure? && ChosenClient(lookup, clientInsert).Some? && formInsert.Data?
  {
  }

  lemma Pair<T>(a: T, b: T)
    ensures [a] + [b] == [a, b]
  {
  }

  lemma Triple<T>(a: T, b: T, c: T)
    ensures [a] + [b] + [c] == [a, b, c]
  {
  }

  /** Rounding leaves a whole number alone. */
  lemma RoundWhole(n: int)
    ensures Round(n as real) == n
  {
  }

  /** A whole number of rupees typed as digits is stored as that many hundred paise. */
  lemma ToPaiseDigits(d: string)
    requires d != [] && IsDigits(d)
    ensures ToPaise(d) == DigitsValue(d) * 100
  {
    ParseFloatDigits(d);
    RoundWhole(DigitsValue(d) * 100);
  }

  /** One decimal `.d` is `10 × d` paise. */
  lemma PaiseOfOneDecimal(f: string)
    requires IsDigits(f) && |f| == 1
    ensures FractionValue(f) * 100.0 == (DigitsValue(f) * 10) as real
  {
    var d := f[0] as int - '0' as int;
    assert f[1..] == [] && f[..0] == [];
    assert FractionValue(f) == d as real / 10.0;
    assert DigitsValue(f) == d;
  }

  /** Two decimals `.de` are `10 × d + e` paise. */
  lemma PaiseOfTwoDecimals(f: string)
    requires IsDigits(f) && |f| == 2
    ensures FractionValue(f) * 100.0 == DigitsValue(f) as real
  {
    var d, e := f[0] as int - '0' as int, f[1] as int - '0' as int;
    assert f[1..][1..] == [] && f[..1][..0] == [];
    assert f[..1] == [f[0]] && f[1..] == [f[1]];
    assert FractionValue(f[1..]) == e as real / 10.0;
    assert FractionValue(f) == (d as real + e as real / 10.0) / 10.0;
    assert DigitsValue(f[..1]) == d;
    assert DigitsValue(f) == 10 * d + e;
  }

  /** Shifting a fraction of at most two digits by two places gives whole paise. */
  lemma PaiseOfFraction(f: string)
    requires IsDigits(f) && |f| <= 2
    ensures FractionValue(f) * 100.0 == (DigitsValue(f) * Pow10(2 - |f|)) as real
  {
    if |f| == 1 {
      PaiseOfOneDecimal(f);
      assert Pow10(1) == 10;
    } else if |f| == 2 {
      PaiseOfTwoDecimals(f);
    }
  }

  /** Rupees and paise typed as `i.f`, with at most two decimals, convert exactly. */
  lemma ToPaiseDecimal(i: string, f: string)
    requires IsDigits(i) && IsDigits(f) && (i != [] || f != []) && |f| <= 2
    ensures ToPaise(i + "." + f) == DigitsValue(i) * 100 + DigitsValue(f) * Pow10(2 - |f|)
  {
    ParseFloatDecimal(i, f);
    PaiseOfFraction(f);
    var n := DigitsValue(i) * 100 + DigitsValue(f) * Pow10(2 - |f|);
    assert DecimalValue(i, f) * 100.0 == n as real;
    RoundWhole(n);
  }

  /** Ages typed as digits are stored as their value. */
  lemma StoredAgeDigits(d: string)
    requires d != [] && IsDigits(d)
    ensures StoredAge(d) == DigitsValue(d)
  {
    ParseIntDigits(d, []);
    assert d + [] == d;
  }

  /**
   * The stored row for a salary and an age typed as digits: the salary
   * column holds that many hundred paise and the age column the age.
   */
  lemma FormRowOfDigits(clientId: Id, user: User, form: FormData)
    requires form.salary != [] && IsDigits(form.salary)
    requires form.age != [] && IsDigits(form.age)
    ensures FormRowFor(clientId, user, form).monthlySalary == DigitsValue(form.salary) * 100
    ensures FormRowFor(clientId, user, form).age == DigitsValue(form.age)
  {
    ToPaiseDigits(form.salary);
    StoredAgeDigits(form.age);
  }
}
