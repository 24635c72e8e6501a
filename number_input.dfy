/** What the numeric input widgets of src/components/ui/ share: the value
    they show (`undefined`, `null` or a number), the `onChange` call a
    handler makes, and the typed-input handler, which rating-input.tsx and
    year-input.tsx write identically. */
module NumberInput {
  import opened Wrappers
  import opened Schema
  import opened Text

  /** The effect of one handler: no `onChange` call, `onChange(null)`, or
      `onChange(n)`. */
  datatype Change = NoCall | SetNull | SetValue(n: int)

  /** A value the widget treats as "none": `undefined` or `null`. */
  predicate Blank(v: Nullable<int>) {
    !v.Value?
  }

  /** The value the parent passes back after `onChange`. */
  function Next(v: Nullable<int>, c: Change): (r: Nullable<int>)
    ensures c.NoCall? ==> r == v
    ensures c.SetNull? ==> r == Null
    ensures c.SetValue? ==> r == Value(c.n)
  {
    match c
    case NoCall => v
    case SetNull => Null
    case SetValue(n) => Value(n)
  }

  /** `handleInputChange`: an empty field clears, a field `parseInt`
      reads is passed through unclamped, anything else is ignored. */
  function TypedInput(text: string): (c: Change)
    ensures text == "" ==> c == SetNull
    ensures text != "" && ParseInt(text).None? ==> c == NoCall
    ensures text != "" && ParseInt(text).Some? ==> c == SetValue(ParseInt(text).value)
  {
    if text == "" then SetNull
    else
      var parsed := ParseInt(text);
      if parsed.None? then NoCall else SetValue(parsed.value)
  }

  /** Typing the decimal form of a number sets exactly that number. */
  lemma TypedInputShow(n: int)
    ensures TypedInput(Show(n)) == SetValue(n)
  {
    ParseShow(n);
  }
}
