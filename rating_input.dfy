/** The rating stepper of src/components/ui/rating-input.tsx: minus,
    plus, typed input and blur, each a function from the shown value to
    the `onChange` call it makes. */
module RatingInput {
  import opened Schema
  import opened NumberInput

  /** `handleDecrement`: nothing for a blank value, clear at 1 or below,
      otherwise one less. */
  function Decrement(v: Nullable<int>): (c: Change)
    ensures Blank(v) ==> c == NoCall
    ensures v.Value? && v.value <= 1 ==> c == SetNull
    ensures v.Value? && v.value > 1 ==> c == SetValue(v.value - 1)
  {
    if Blank(v) then NoCall
    else if v.value <= 1 then SetNull
    else SetValue(v.value - 1)
  }

  /** `handleIncrement`: start at 1, otherwise one more below 10, and do
      nothing from 10 up. */
  function Increment(v: Nullable<int>): (c: Change)
    ensures Blank(v) ==> c == SetValue(1)
    ensures v.Value? && v.value < 10 ==> c == SetValue(v.value + 1)
    ensures v.Value? && v.value >= 10 ==> c == NoCall
  {
    if Blank(v) then SetValue(1)
    else if v.value < 10 then SetValue(v.value + 1)
    else NoCall
  }

  /** `handleBlur`: pull a shown value into [1, 10]. */
  function Blur(v: Nullable<int>): (c: Change)
    ensures c.SetValue? ==> 1 <= c.n <= 10
    ensures c == NoCall <==> Blank(v) || 1 <= v.value <= 10
    ensures v.Value? && v.value < 1 ==> c == SetValue(1)
    ensures v.Value? && v.value > 10 ==> c == SetValue(10)
  {
    if v.Value? then
      if v.value < 1 then SetValue(1)
      else if v.value > 10 then SetValue(10)
      else NoCall
    else NoCall
  }

  /** Blurring twice does no more than blurring once. */
  lemma BlurIdempotent(v: Nullable<int>)
    ensures Blur(Next(v, Blur(v))) == NoCall
  {
  }

  /** The value after `n` presses of plus. */
  function IncrementTimes(v: Nullable<int>, n: nat): Nullable<int>
    decreases n
  {
    if n == 0 then v else IncrementTimes(Next(v, Increment(v)), n - 1)
  }

  /** From a blank value or one at most 10, plus never goes past 10. */
  lemma {:induction false} IncrementNeverPassesTen(v: Nullable<int>, n: nat)
    requires v.Value? ==> v.value <= 10
    ensures var r := IncrementTimes(v, n); r.Value? ==> r.value <= 10
    decreases n
  {
    if n > 0 {
      IncrementNeverPassesTen(Next(v, Increment(v)), n - 1);
    }
  }

  /** `n` presses of plus on a blank rating give `min(n, 10)`. */
  lemma {:induction false} IncrementFromBlank(v: Nullable<int>, n: nat)
    requires Blank(v) && n >= 1
    ensures IncrementTimes(v, n) == Value(if n < 10 then n else 10)
  {
    IncrementFromValue(1, n - 1);
  }

  lemma {:induction false} IncrementFromValue(k: int, n: nat)
    requires 1 <= k <= 10
    ensures IncrementTimes(Value(k), n) == Value(if k + n < 10 then k + n else 10)
    decreases n
  {
    if n > 0 {
      IncrementFromValue(if k < 10 then k + 1 else 10, n - 1);
    }
  }

  /** Plus undoes minus from 2 to 10, and minus undoes plus from 1 to 9. */
  lemma StepsAreInverse(v: int)
    ensures 2 <= v <= 10 ==> Next(Value(v - 1), Increment(Next(Value(v), Decrement(Value(v))))) == Value(v)
    ensures 1 <= v <= 9 ==> Next(Value(v + 1), Decrement(Next(Value(v), Increment(Value(v))))) == Value(v)
  {
  }
}
