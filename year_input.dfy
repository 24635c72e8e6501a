/** The year stepper of src/components/ui/year-input.tsx; the current
    year (`new Date().getFullYear()`) is a parameter. */
module YearInput {
  import opened Schema
  import opened NumberInput

  /** `handleDecrement`: a blank value jumps to the current year. */
  function Decrement(v: Nullable<int>, currentYear: int): (c: Change)
    ensures Blank(v) ==> c == SetValue(currentYear)
    ensures v.Value? ==> c == SetValue(v.value - 1)
  {
    if Blank(v) then SetValue(currentYear) else SetValue(v.value - 1)
  }

  /** `handleIncrement`: a blank value jumps to the current year. */
  function Increment(v: Nullable<int>, currentYear: int): (c: Change)
    ensures Blank(v) ==> c == SetValue(currentYear)
    ensures v.Value? ==> c == SetValue(v.value + 1)
  {
    if Blank(v) then SetValue(currentYear) else SetValue(v.value + 1)
  }

  /** For a shown year, plus after minus and minus after plus give it back. */
  lemma StepsAreInverse(v: int, currentYear: int)
    ensures Next(Next(Value(v), Decrement(Value(v), currentYear)),
                 Increment(Next(Value(v), Decrement(Value(v), currentYear)), currentYear)) == Value(v)
    ensures Next(Next(Value(v), Increment(Value(v), currentYear)),
                 Decrement(Next(Value(v), Increment(Value(v), currentYear)), currentYear)) == Value(v)
  {
  }

  /** Both buttons always call `onChange` with a year. */
  lemma StepsAlwaysSet(v: Nullable<int>, currentYear: int)
    ensures Decrement(v, currentYear).SetValue? && Increment(v, currentYear).SetValue?
  {
  }
}
