/**
 * The line gate. Checkable is the interface a LogFile consults for each
 * line: it answers true or false, or throws StringIsTooLongException.
 * MaxLengthCheck is its one implementation: it accepts every string up to
 * a length fixed at construction and throws for a longer one.
 */
module Checks {
  /** What a Checkable's checkString does: answer, or throw StringIsTooLongException. */
  datatype CheckOutcome = Answer(accepted: bool) | StringIsTooLong(length: nat, maxLength: int)

  /** Checkable.checkString as a total function of the line. */
  type Checkable = string -> CheckOutcome

  /** A MaxLengthCheck; maxLength is final, so it is a value. */
  datatype MaxLengthCheck = MaxLengthCheck(maxLength: int) {
    /** checkString: true up to maxLength characters, the exception beyond. */
    function CheckString(str: string): (r: CheckOutcome)
      ensures r == Answer(true) <==> |str| <= maxLength
      ensures r == StringIsTooLong(|str|, maxLength) <==> |str| > maxLength
      ensures r != Answer(false)
    {
      if |str| > maxLength then StringIsTooLong(|str|, maxLength) else Answer(true)
    }

    /** The check as the Checkable a LogFile is given. */
    function AsCheckable(): (c: Checkable)
      ensures forall str :: c(str) == CheckString(str)
    {
      str => CheckString(str)
    }
  }

  /** A string of exactly maxLength characters passes. */
  lemma BoundaryIsInclusive(check: MaxLengthCheck, str: string)
    requires |str| == check.maxLength
    ensures check.CheckString(str) == Answer(true)
  {
  }

  /** Passing is closed under shortening: a string no longer than an accepted one is accepted too. */
  lemma ShorterStringsPass(check: MaxLengthCheck, longer: string, shorter: string)
    requires check.CheckString(longer) == Answer(true) && |shorter| <= |longer|
    ensures check.CheckString(shorter) == Answer(true)
  {
  }
}
