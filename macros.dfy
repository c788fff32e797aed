/**
 * The guard and digit helpers the decoders are written with.
 *
 * In the source these are macros that return early from the enclosing decoder
 * with "Unexpected character". Here each guard is a function that says whether
 * the enclosing decoder passes on or fails, and with which error.
 */
module Macros {
  import opened Errors

  /** The character a `StringReader` yields once its input is exhausted. */
  const END: char := '\0'

  /** The ASCII decimal digits, in order of value. */
  const DIGITS: string := "0123456789"

  /** `char::is_digit(10)`: only the ASCII decimal digits. */
  predicate IsDigit(c: char) {
    '0' <= c <= '9'
  }

  /** The digit characters are exactly the characters of `DIGITS`. */
  lemma DigitsAreDigits(c: char)
    ensures IsDigit(c) <==> c in DIGITS
  {
    if IsDigit(c) {
      assert DIGITS[ToInt(c)] == c;
    }
  }

  /** `to_int!`: the value of a decimal digit. */
  function ToInt(c: char): (d: nat)
    requires IsDigit(c)
    ensures d < 10 && DIGITS[d] == c
  {
    (c as int) - ('0' as int)
  }

  /** What a guard macro does: let the decoder continue, or make it return an error. */
  datatype Outcome = Pass | Fail(error: DataError)

  /** `parse_err!`: always the "Unexpected character" error, with no position. */
  function ParseErr<T>(): (r: Result<T>)
    ensures r.Err? && r.error.kind == UnexpectedCharacter && r.error.location == NoLocation
  {
    Err(UnexpectedChar)
  }

  /** `assert_numeric!`: fails exactly on a character that is not an ASCII decimal digit. */
  function AssertNumeric(c: char): (o: Outcome)
    ensures o.Fail? <==> !IsDigit(c)
    ensures o.Fail? ==> o.error == UnexpectedChar
  {
    if IsDigit(c) then Pass else Fail(UnexpectedChar)
  }

  /** `assert_same!`: fails exactly when the character is not the expected one. */
  function AssertSame(c: char, expected: char): (o: Outcome)
    ensures o.Fail? <==> c != expected
    ensures o.Fail? ==> o.error == UnexpectedChar
  {
    if c != expected then Fail(UnexpectedChar) else Pass
  }

  /** `assert_not_end!`: fails exactly on the end-of-input character. */
  function AssertNotEnd(c: char): (o: Outcome)
    ensures o.Fail? <==> c == '\0'
    ensures o.Fail? ==> o.error == UnexpectedChar
  {
    if c == END then Fail(UnexpectedChar) else Pass
  }
}
