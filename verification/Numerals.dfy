/** Decimal numbers as text. */
module Numerals {

  function Digits(n: nat): string {
    if n < 10 then ['0' + n as char] else Digits(n / 10) + ['0' + (n % 10) as char]
  }

  /** Reading digits from the left. */
  function Read(digits: string): int {
    if digits == "" then 0 else 10 * Read(digits[..|digits| - 1]) + (digits[|digits| - 1] as int - '0' as int)
  }

  /** A number reads as itself, in digits only, without a leading zero. */
  lemma {:induction false} DigitsRead(n: nat)
    ensures var digits := Digits(n);
            && digits != "" && Read(digits) == n && (forall c | c in digits :: '0' <= c <= '9')
            && (digits[0] == '0' ==> n == 0 && |digits| == 1)
  {
    if 10 <= n {
      DigitsRead(n / 10);
      assert Digits(n)[..|Digits(n)| - 1] == Digits(n / 10);
    } else {
      assert Digits(n)[..0] == "";
    }
  }
}
