/** Numbers as decimal digits. */
module Numerals {
  function DigitsOf(n: nat): string {
    (if n < 10 then "" else DigitsOf(n / 10)) + [(n % 10) as char + '0']
  }
}
