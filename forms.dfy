/** Values that reach a handler from an HTTP form or JSON body. */
module Forms {

  /** A value that may be absent: a form field that was not submitted, a row that was not found. */
  datatype Option<+T> = None | Some(value: T)

  /** A form field passes Python's truthiness test: it was submitted and is not the empty string. */
  predicate Filled(field: Option<string>)
  {
    field.Some? && field.value != ""
  }

  predicate IsDigit(c: char)
  {
    '0' <= c <= '9'
  }

  /** A non-empty run of decimal digits: the text the database turns into an integer key. */
  predicate IsNumeral(s: string)
  {
    s != "" && forall i :: 0 <= i < |s| ==> IsDigit(s[i])
  }

  /** The value of a run of decimal digits, most significant first. */
  function NumeralValue(s: string): nat
    requires forall i :: 0 <= i < |s| ==> IsDigit(s[i])
  {
    if s == [] then 0
    else
      assert IsDigit(s[|s| - 1]);
      10 * NumeralValue(s[..|s| - 1]) + ((s[|s| - 1] as int) - ('0' as int))
  }

  /** The integer key a submitted `user_id` text names, if it is a numeral. */
  function ParseId(field: Option<string>): Option<nat>
  {
    if field.Some? && IsNumeral(field.value) then Some(NumeralValue(field.value)) else None
  }
}
