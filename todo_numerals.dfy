/**
 * The two number conversions of java.lang the To-Do program relies on, over ASCII decimal
 * digits: Integer.parseInt (priorities from the CSV file and ids from the command line)
 * and Integer.toString (the ids createToDo hands out), and Boolean.parseBoolean.
 */
module ToDoNumerals {
  import opened Wrappers

  /** The range of a Java int. */
  const IntMin: int := -0x8000_0000
  const IntMax: int := 0x7fff_ffff

  predicate IsDigit(c: char) {
    '0' <= c <= '9'
  }

  predicate AllDigits(s: string) {
    forall i :: 0 <= i < |s| ==> IsDigit(s[i])
  }

  function DigitValue(c: char): (r: nat)
    requires IsDigit(c)
    ensures r < 10
  {
    c as int - '0' as int
  }

  function DigitChar(d: nat): (c: char)
    requires d < 10
    ensures IsDigit(c) && DigitValue(c) == d
  {
    ('0' as int + d) as char
  }

  /** The value of a run of decimal digits, most significant first. */
  function DigitsValue(s: string): nat
    requires AllDigits(s)
  {
    if s == [] then 0 else DigitsValue(s[..|s| - 1]) * 10 + DigitValue(s[|s| - 1])
  }

  /**
   * Integer.parseInt(s) in radix 10: an optional '+' or '-', then at least one digit, and
   * a value within the int range; None where Java throws NumberFormatException.
   */
  function ParseInt(s: string): (r: Option<int>)
    ensures r.Some? ==> IntMin <= r.value <= IntMax
    ensures r.Some? ==> |s| > 0 && (IsDigit(s[0]) || s[0] == '+' || s[0] == '-')
  {
    if |s| == 0 then None
    else
      var signed := s[0] == '-' || s[0] == '+';
      var digits := if signed then s[1..] else s;
      if |digits| == 0 || !AllDigits(digits) then None
      else
        var magnitude: int := DigitsValue(digits);
        var v: int := if s[0] == '-' then 0 - magnitude else magnitude;
        if IntMin <= v <= IntMax then Some(v) else None
  }

  /** Integer.toString(n) for a non-negative n: its decimal digits, without leading zeros. */
  function DecimalString(n: nat): (r: string)
    ensures |r| > 0 && AllDigits(r) && DigitsValue(r) == n
    ensures r[0] == '0' ==> n == 0
  {
    if n < 10 then [DigitChar(n)] else DecimalString(n / 10) + [DigitChar(n % 10)]
  }

  /** Integer.parseInt reads back what Integer.toString wrote. */
  lemma ParseDecimalString(n: nat)
    requires n <= -IntMin
    ensures n <= IntMax ==> ParseInt(DecimalString(n)) == Some(n)
    ensures ParseInt("-" + DecimalString(n)) == Some(-(n as int))
  {
    var s := DecimalString(n);
    assert ("-" + s)[1..] == s;
  }

  /** Distinct counters give distinct decimal strings. */
  lemma DecimalStringInjective(a: nat, b: nat)
    requires a != b
    ensures DecimalString(a) != DecimalString(b)
  {
  }

  /** The lower-case form of an ASCII letter; any other character is kept. */
  function LowerAscii(c: char): char {
    if 'A' <= c <= 'Z' then (c as int + 32) as char else c
  }

  /**
   * Boolean.parseBoolean(s): true exactly when s is non-null and equals "true" ignoring
   * the case of its letters.
   */
  function ParseBoolean(s: Option<string>): (r: bool)
    ensures r ==> s.Some? && |s.value| == 4
    ensures s == Some("true") || s == Some("TRUE") ==> r
  {
    s.Some? && |s.value| == 4 && forall i :: 0 <= i < 4 ==> LowerAscii(s.value[i]) == "true"[i]
  }
}
