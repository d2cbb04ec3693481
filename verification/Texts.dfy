/** Pieces of text that paths and names are made of. */
module Texts {
  predicate EndsWith(s: string, w: string) {
    |w| <= |s| && s[|s| - |w|..] == w
  }

  // ---- numbers as they are written ----

  const DIGITS: string := "0123456789"

  function Decimal(n: nat): (s: string)
    ensures s != ""
  {
    if n < 10 then [DIGITS[n]] else Decimal(n / 10) + [DIGITS[n % 10]]
  }

  lemma DigitsDiffer(a: nat, b: nat)
    requires a < 10 && b < 10
    ensures DIGITS[a] == DIGITS[b] ==> a == b
  { }

  lemma LastDigit(n: nat)
    ensures var s := Decimal(n); '0' <= s[|s| - 1] <= '9' && s[|s| - 1] == DIGITS[n % 10]
    ensures n >= 10 ==> var s := Decimal(n); s[..|s| - 1] == Decimal(n / 10)
    ensures |Decimal(n)| == 1 <==> n < 10
  { }

  /** Different numbers are written differently. */
  lemma {:induction false} DecimalsDiffer(a: nat, b: nat)
    ensures Decimal(a) == Decimal(b) ==> a == b
  {
    LastDigit(a);
    LastDigit(b);
    DigitsDiffer(a % 10, b % 10);
    if a >= 10 && b >= 10 {
      DecimalsDiffer(a / 10, b / 10);
    }
  }
}
