/** Decimal printing and parsing: the `%d` verb and `strconv.Atoi`. */
module Decimals {
  import opened Domain

  predicate IsDigit(c: char) {
    '0' <= c <= '9'
  }

  predicate AllDigits(s: string) {
    forall i | 0 <= i < |s| :: IsDigit(s[i])
  }

  function DigitChar(d: nat): (c: char)
    requires d < 10
    ensures IsDigit(c) && DigitValue(c) == d
  {
    '0' + d as char
  }

  function DigitValue(c: char): nat
    requires IsDigit(c)
  {
    (c - '0') as nat
  }

  /** The decimal digits of a natural number, most significant first. */
  function Digits(n: nat): (s: string)
    ensures 0 < |s| && AllDigits(s)
  {
    if n < 10 then [DigitChar(n)] else Digits(n / 10) + [DigitChar(n % 10)]
  }

  /** The number a digit string denotes. */
  function Value(s: string): nat
    requires AllDigits(s)
  {
    if s == "" then 0 else Value(s[..|s| - 1]) * 10 + DigitValue(s[|s| - 1])
  }

  /** `%d`. */
  function Format(n: int): string {
    if n < 0 then "-" + Digits(-n) else Digits(n)
  }

  /** `strconv.Atoi`: an optional sign, at least one digit, value in range. */
  function Atoi(s: string): Option<int> {
    var negative := s != "" && s[0] == '-';
    var digits := if s != "" && (s[0] == '-' || s[0] == '+') then s[1..] else s;
    if digits == "" || !AllDigits(digits) then None
    else
      var n: int := if negative then -(Value(digits) as int) else Value(digits);
      if MIN_INT <= n <= MAX_INT then Some(n) else None
  }

  /** What `strconv.Atoi` returns beside its error: 0 for a malformed number,
      the nearest machine integer for one out of range. */
  function AtoiAnyway(s: string): int {
    var digits := if s != "" && (s[0] == '-' || s[0] == '+') then s[1..] else s;
    match Atoi(s)
    case Some(n) => n
    case None => if digits == "" || !AllDigits(digits) then 0 else if s[0] == '-' then MIN_INT else MAX_INT
  }

  lemma {:induction false} ValueOfDigits(n: nat)
    ensures Value(Digits(n)) == n
  {
    if n >= 10 {
      ValueOfDigits(n / 10);
      var s := Digits(n);
      assert s[..|s| - 1] == Digits(n / 10);
    }
  }

  lemma AtoiDigits(n: nat)
    requires n <= MAX_INT
    ensures Atoi(Digits(n)) == Some(n)
  {
    ValueOfDigits(n);
    assert IsDigit(Digits(n)[0]);
  }

  lemma AtoiMinusDigits(n: nat)
    requires 0 < n <= MAX_INT + 1
    ensures Atoi("-" + Digits(n)) == Some(-(n as int))
  {
    ValueOfDigits(n);
    assert ("-" + Digits(n))[1..] == Digits(n);
  }

  /** Printing then parsing gives back every machine integer. */
  lemma AtoiFormat(n: GoInt)
    ensures Atoi(Format(n)) == Some(n)
  {
    if n < 0 {
      AtoiMinusDigits(-(n as int));
    } else {
      AtoiDigits(n);
    }
  }

  lemma DigitsInjective(m: nat, n: nat)
    requires Digits(m) == Digits(n)
    ensures m == n
  {
    ValueOfDigits(m);
    ValueOfDigits(n);
  }
}
