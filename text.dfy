/**
 * Character and string operations of java.lang used by the parser, restricted
 * to ASCII: String.toUpperCase, String.indexOf, Integer.parseInt and the
 * "word character" test behind the regular-expression boundary \b.
 */
module Text {
  import opened Outcomes

  const IntMin: int := -0x8000_0000
  const IntMax: int := 0x7fff_ffff

  predicate IsDigit(c: char) {
    '0' <= c <= '9'
  }

  function DigitValue(c: char): (d: nat)
    requires IsDigit(c)
    ensures d < 10
  {
    c as int - '0' as int
  }

  /** Characters that a regular-expression word boundary treats as word characters. */
  predicate IsWordChar(c: char) {
    'A' <= c <= 'Z' || 'a' <= c <= 'z' || IsDigit(c) || c == '_'
  }

  function UpperChar(c: char): (u: char)
    ensures 'a' <= c <= 'z' ==> u as int == c as int - 32
    ensures !('a' <= c <= 'z') ==> u == c
  {
    if 'a' <= c <= 'z' then (c as int - 32) as char else c
  }

  /** String.toUpperCase on ASCII letters; every other character is kept. */
  function ToUpper(s: string): (r: string)
    ensures |r| == |s|
    ensures forall i :: 0 <= i < |s| ==> r[i] == UpperChar(s[i])
  {
    if s == [] then [] else [UpperChar(s[0])] + ToUpper(s[1..])
  }

  lemma ToUpperIdempotent(s: string)
    ensures ToUpper(ToUpper(s)) == ToUpper(s)
  {
    var u := ToUpper(s);
    assert forall i :: 0 <= i < |u| ==> UpperChar(u[i]) == u[i];
  }

  /** String.indexOf(c, from): the first index at or after from holding c. */
  function IndexOf(s: string, c: char, from: nat): (r: Option<nat>)
    decreases |s| - from
    ensures r.Some? ==> from <= r.value < |s| && s[r.value] == c
    ensures r.Some? ==> forall k :: from <= k < r.value ==> s[k] != c
    ensures r.None? ==> forall k :: from <= k < |s| ==> s[k] != c
  {
    if from >= |s| then None
    else if s[from] == c then Some(from)
    else IndexOf(s, c, from + 1)
  }

  predicate AllDigits(s: string) {
    forall i :: 0 <= i < |s| ==> IsDigit(s[i])
  }

  /** The value of a string of decimal digits, most significant first. */
  function DigitsValue(s: string): (n: nat)
    requires AllDigits(s)
  {
    if s == [] then 0 else DigitsValue(s[..|s| - 1]) * 10 + DigitValue(s[|s| - 1])
  }

  /** The text Integer.parseInt accepts: an optional sign and at least one digit. */
  predicate IsIntegerText(s: string) {
    if |s| > 0 && (s[0] == '-' || s[0] == '+')
    then |s| > 1 && AllDigits(s[1..])
    else |s| > 0 && AllDigits(s)
  }

  /** The mathematical value of text accepted by IsIntegerText. */
  function IntegerValue(s: string): int
    requires IsIntegerText(s)
  {
    if s[0] == '-' then -(DigitsValue(s[1..]) as int)
    else if s[0] == '+' then DigitsValue(s[1..])
    else DigitsValue(s)
  }

  /**
   * Integer.parseInt: None stands for NumberFormatException, thrown for text
   * that is not a signed ASCII decimal or whose value does not fit in 32 bits.
   */
  function ParseInt(s: string): (r: Option<int>)
    ensures r.Some? ==> IsIntegerText(s) && r.value == IntegerValue(s) && IntMin <= r.value <= IntMax
    ensures r.None? ==> !IsIntegerText(s) || IntegerValue(s) < IntMin || IntMax < IntegerValue(s)
  {
    if IsIntegerText(s) && IntMin <= IntegerValue(s) <= IntMax then Some(IntegerValue(s)) else None
  }

  /** The decimal digits of n, most significant first, without leading zeros. */
  function Digits(n: nat): (s: string)
    ensures |s| > 0 && AllDigits(s)
  {
    if n < 10 then [('0' as int + n) as char] else Digits(n / 10) + [('0' as int + n % 10) as char]
  }

  /** Integer.toString: the decimal text of n, with a minus sign when negative. */
  function DecimalText(n: int): (s: string)
    ensures IsIntegerText(s)
  {
    if n < 0 then "-" + Digits(-n) else Digits(n)
  }

  lemma {:induction false} DigitsValueOfDigits(n: nat)
    ensures DigitsValue(Digits(n)) == n
  {
    if n >= 10 {
      var s := Digits(n);
      assert s[..|s| - 1] == Digits(n / 10);
      DigitsValueOfDigits(n / 10);
    }
  }

  /** toString writes text whose mathematical value is the number written. */
  lemma IntegerValueOfDecimalText(n: int)
    ensures IntegerValue(DecimalText(n)) == n
  {
    var s := DecimalText(n);
    if n < 0 {
      assert s[1..] == Digits(-n);
      DigitsValueOfDigits(-n);
    } else {
      assert s[0] != '-' && s[0] != '+';
      DigitsValueOfDigits(n);
    }
  }

  /** parseInt reads back every 32-bit value that toString writes. */
  lemma ParseIntOfDecimalText(n: int)
    requires IntMin <= n <= IntMax
    ensures ParseInt(DecimalText(n)) == Some(n)
  {
    IntegerValueOfDecimalText(n);
  }

  /** parseInt refuses every value outside the 32-bit range. */
  lemma ParseIntRefusesOverflow(n: int)
    requires n < IntMin || IntMax < n
    ensures ParseInt(DecimalText(n)) == None
  {
    IntegerValueOfDecimalText(n);
  }
}
