/** Russian numeral phrasing for usage counts: the ordinal form
    ("14-ый", as in "the 14th time") and the cardinal count noun
    ("3 раза", "5 раз"). Both start with the number written in decimal. */
module Numerals {

  /** The character of one decimal digit. */
  function DigitChar(k: nat): (c: char)
    requires k < 10
    ensures '0' <= c <= '9'
    ensures c as int - '0' as int == k
  {
    ('0' as int + k) as char
  }

  predicate IsDigit(c: char) {
    '0' <= c <= '9'
  }

  predicate AllDigits(s: string) {
    forall i :: 0 <= i < |s| ==> IsDigit(s[i])
  }

  /** The value a string of decimal digits denotes, most significant first. */
  function ReadDecimal(s: string): nat
    requires AllDigits(s)
  {
    if s == [] then 0
    else ReadDecimal(s[..|s| - 1]) * 10 + (s[|s| - 1] as int - '0' as int)
  }

  /** `n` written in decimal without leading zeros, as an f-string renders an int. */
  function Decimal(n: nat): (r: string)
    ensures 1 <= |r|
    ensures AllDigits(r)
    ensures |r| > 1 ==> r[0] != '0'
  {
    if n < 10 then [DigitChar(n)] else Decimal(n / 10) + [DigitChar(n % 10)]
  }

  /** The decimal rendering reads back as the number it was made from. */
  lemma {:induction false} DecimalReadsBack(n: nat)
    ensures ReadDecimal(Decimal(n)) == n
  {
    var r := Decimal(n);
    if n < 10 {
      assert r[..0] == [];
    } else {
      assert r[..|r| - 1] == Decimal(n / 10);
      DecimalReadsBack(n / 10);
    }
  }

  /** True when the last two digits of `n` are 11 to 19. */
  predicate IsTeen(n: nat) {
    11 <= n % 100 <= 19
  }

  /** The ordinal phrase of `n`: "-ый" for the teens and for last digits
      0, 1, 4, 5, 9 (the teen test comes first), "-ий" for last digit 3,
      "-ой" otherwise. */
  function Ordinal(n: nat): string {
    Decimal(n) + OrdinalEnding(n)
  }

  /** The ending `Ordinal` puts after the digits. */
  function OrdinalEnding(n: nat): string {
    var last := n % 10;
    if IsTeen(n) || last == 0 || last == 1 || last == 4 || last == 5 || last == 9 then "-ый"
    else if last == 3 then "-ий"
    else "-ой"
  }

  /** The cardinal count phrase of `n`: "раза" after last digits 2, 3, 4
      except when the last two digits are 12, 13 or 14; "раз" otherwise. */
  function Cardinal(n: nat): string {
    Decimal(n) + CountNoun(n)
  }

  /** The count noun `Cardinal` puts after the digits. */
  function CountNoun(n: nat): string {
    var last, lastTwo := n % 10, n % 100;
    if 2 <= last <= 4 && !(12 <= lastTwo <= 14) then " раза" else " раз"
  }

  /** Which ending the ordinal phrase takes, each stated as an if-and-only-if
      over the last digit and the last two digits. */
  lemma OrdinalEndings(n: nat)
    ensures Ordinal(n) == Decimal(n) + "-ый" <==> IsTeen(n) || n % 10 in {0, 1, 4, 5, 9}
    ensures Ordinal(n) == Decimal(n) + "-ий" <==> !IsTeen(n) && n % 10 == 3
    ensures Ordinal(n) == Decimal(n) + "-ой" <==> !IsTeen(n) && n % 10 in {2, 6, 7, 8}
  {
    var d := Decimal(n);
    assert (d + "-ый")[|d| + 1] == 'ы';
    assert (d + "-ий")[|d| + 1] == 'и';
    assert (d + "-ой")[|d| + 1] == 'о';
  }

  /** Which count noun the cardinal phrase takes, as an if-and-only-if. */
  lemma CardinalEndings(n: nat)
    ensures Cardinal(n) == Decimal(n) + " раза" <==> n % 10 in {2, 3, 4} && n % 100 !in {12, 13, 14}
    ensures Cardinal(n) == Decimal(n) + " раз" <==> !(n % 10 in {2, 3, 4} && n % 100 !in {12, 13, 14})
  {
    var d := Decimal(n);
    assert |d + " раза"| != |d + " раз"|;
  }

  /** The ending depends on the last two digits only. */
  lemma EndingsRepeatEveryHundred(n: nat)
    ensures Ordinal(n + 100)[|Decimal(n + 100)|..] == Ordinal(n)[|Decimal(n)|..]
    ensures Cardinal(n + 100)[|Decimal(n + 100)|..] == Cardinal(n)[|Decimal(n)|..]
  {
    assert (n + 100) % 100 == n % 100 && (n + 100) % 10 == n % 10;
  }

  /** Worked ordinal values by last digit. */
  lemma OrdinalExamples()
    ensures Ordinal(2) == "2-ой" && Ordinal(3) == "3-ий"
    ensures Ordinal(22) == "22-ой" && Ordinal(23) == "23-ий"
  {
    assert Decimal(2) == "2" && Decimal(3) == "3" && Decimal(22) == "22" && Decimal(23) == "23";
  }

  /** Worked ordinal values around the teen exception. */
  lemma OrdinalTeenExamples()
    ensures Ordinal(11) == "11-ый" && Ordinal(13) == "13-ый" && Ordinal(14) == "14-ый"
    ensures Ordinal(21) == "21-ый"
  {
    assert Decimal(11) == "11" && Decimal(13) == "13" && Decimal(14) == "14" && Decimal(21) == "21";
  }

  /** Worked cardinal values by last digit. */
  lemma CardinalExamples()
    ensures Cardinal(2) == "2 раза" && Cardinal(3) == "3 раза" && Cardinal(5) == "5 раз"
    ensures Cardinal(22) == "22 раза"
  {
    assert Decimal(2) == "2" && Decimal(3) == "3" && Decimal(5) == "5" && Decimal(22) == "22";
  }

  /** Worked cardinal values around the 12-14 exception. */
  lemma CardinalTeenExamples()
    ensures Cardinal(12) == "12 раз" && Cardinal(13) == "13 раз" && Cardinal(21) == "21 раз"
  {
    assert Decimal(12) == "12" && Decimal(13) == "13" && Decimal(21) == "21";
  }
}
