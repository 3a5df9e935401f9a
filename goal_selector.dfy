/**
 * The per-goal input filters of src/components/GoalSelector.tsx. A keystroke
 * in the amount or years box is passed on to the parent's handler only when
 * the parsed value is in range, and what is passed on is the raw text.
 */
module GoalSelector {
  import opened Wrappers
  import opened JsParse
  import opened FormTypes

  /** `validateAmount`: forward when `parseFloat` reads a number that is not negative. */
  function ValidateAmount(value: string): (forwarded: Option<string>)
    ensures forwarded.Some? ==> forwarded.value == value && Truthy(value)
  {
    var amount := ParseFloat(value);
    if amount.None? || amount.value < 0.0 then None else Some(value)
  }

  /** `validateYears`: forward when `parseInt` reads a number from 1 to 50. */
  function ValidateYears(value: string): (forwarded: Option<string>)
    ensures forwarded.Some? ==> forwarded.value == value && Truthy(value)
  {
    var years := ParseInt(value);
    if years.None? || years.value < 1 || years.value > 50 then None else Some(value)
  }

  /** The empty box parses to NaN, so clearing either box is never forwarded. */
  lemma EmptyInputRejected()
    ensures ValidateAmount("") == None
    ensures ValidateYears("") == None
  {
  }

  /** Every whole number typed as digits is a forwarded amount. */
  lemma AmountAcceptsDigits(d: string)
    requires d != [] && IsDigits(d)
    ensures ValidateAmount(d) == Some(d)
  {
    ParseFloatDigits(d);
  }

  /** Every number with a fraction, such as "1234.5" or ".5", is a forwarded amount. */
  lemma AmountAcceptsDecimals(i: string, f: string)
    requires IsDigits(i) && IsDigits(f) && (i != [] || f != [])
    ensures ValidateAmount(i + "." + f) == Some(i + "." + f)
  {
    ParseFloatDecimal(i, f);
  }

  /** A minus sign is forwarded only in front of a zero ("-0", "-00"). */
  lemma AmountRejectsNegative(d: string)
    requires d != [] && IsDigits(d)
    ensures ValidateAmount("-" + d).Some? <==> DigitsValue(d) == 0
  {
    ParseFloatNegative(d);
  }

  /**
   * Years given as digits, possibly followed by a fraction or other text, are
   * forwarded exactly when their whole part is from 1 to 50; so "50.9" passes
   * and "0.5" does not.
   */
  lemma YearsOnDigits(d: string, rest: string)
    requires d != [] && IsDigits(d)
    requires rest == [] || !IsDigit(rest[0])
    ensures ValidateYears(d + rest).Some? <==> 1 <= DigitsValue(d) <= 50
  {
    ParseIntDigits(d, rest);
  }

  /** No negative number of years is forwarded. */
  lemma YearsRejectsNegative(d: string)
    requires d != [] && IsDigits(d)
    ensures ValidateYears("-" + d) == None
  {
    ParseIntNegative(d);
  }

  /** Whatever the years filter forwards, the amount filter would forward too. */
  lemma YearsFilterWithinAmountFilter(value: string)
    requires ValidateYears(value).Some?
    ensures ValidateAmount(value) == ValidateYears(value)
  {
    ParseIntTruncatesParseFloat(value);
  }
}
