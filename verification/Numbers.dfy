/** Decimal numbers as text: QString::number and the digits that QString::toInt reads. */
module Numbers {

  predicate IsDigit(c: char) {
    '0' <= c <= '9'
  }

  predicate AllDigits(s: string) {
    forall i | 0 <= i < |s| :: IsDigit(s[i])
  }

  /** The number that digits stand for. */
  function Decimal(digits: string): nat
    requires AllDigits(digits)
  {
    if digits == "" then 0 else Decimal(digits[..|digits| - 1]) * 10 + (digits[|digits| - 1] as int - '0' as int)
  }

  /** QString::number. */
  function Number(n: int): string
    decreases n < 0, if n < 0 then -n else n
  {
    if n < 0 then "-" + Number(-n)
    else if n < 10 then [('0' as int + n) as char]
    else Number(n / 10) + [('0' as int + n % 10) as char]
  }

  /** The text of a number reads as that number, and has no zeros in front. */
  lemma {:induction false} NumberReads(n: int)
    requires n >= 0
    ensures Number(n) != "" && AllDigits(Number(n)) && Decimal(Number(n)) == n
    ensures Number(n)[0] == '0' ==> n == 0
    ensures Number(-n) == if n == 0 then "0" else "-" + Number(n)
    decreases n
  {
    if n < 10 {
      OneDigit([], n);
    } else {
      NumberReads(n / 10);
      OneDigit(Number(n / 10), n % 10);
    }
  }

  /** One more digit at the end. */
  lemma OneDigit(front: string, d: nat)
    requires AllDigits(front) && d < 10
    ensures var s := front + [('0' as int + d) as char];
            AllDigits(s) && Decimal(s) == Decimal(front) * 10 + d && Decimal("") == 0
  {
    var s := front + [('0' as int + d) as char];
    assert s[..|s| - 1] == front;
  }
}
