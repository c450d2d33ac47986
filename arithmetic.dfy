/** Swift's integer conversion and integer division, which differ from Dafny's. */
module Arithmetic {

  /** `Int(x)` for a finite Double: rounds toward zero. */
  function Truncate(x: real): (r: int)
    ensures x >= 0.0 ==> r as real <= x < r as real + 1.0
    ensures x < 0.0 ==> r as real - 1.0 < x <= r as real
  {
    if x >= 0.0 then x.Floor else -((-x).Floor)
  }

  /** Swift's `a / b` on Int: the quotient rounded toward zero. */
  function Quot(a: int, b: int): int
    requires b > 0
  {
    if a >= 0 then a / b else -((-a) / b)
  }

  /** Swift's `a % b` on Int: the remainder takes the sign of `a`. */
  function Rem(a: int, b: int): int
    requires b > 0
  {
    a - b * Quot(a, b)
  }

  lemma QuotRem(a: int, b: int)
    requires b > 0
    ensures Quot(a, b) * b + Rem(a, b) == a
    ensures a >= 0 ==> 0 <= Rem(a, b) < b && Quot(a, b) >= 0
    ensures a < 0 ==> -b < Rem(a, b) <= 0 && Quot(a, b) <= 0
  {
    if a < 0 {
      var q := (-a) / b;
      assert -a == q * b + (-a) % b;
    }
  }

  /**
   * The hours/minutes/seconds split used by the duration labels:
   * hours = s / 3600, minutes = (s % 3600) / 60, seconds = s % 60.
   */
  lemma HoursMinutesSeconds(s: int)
    ensures Quot(s, 3600) * 3600 + Quot(Rem(s, 3600), 60) * 60 + Rem(s, 60) == s
    ensures s >= 0 ==> 0 <= Quot(Rem(s, 3600), 60) < 60 && 0 <= Rem(s, 60) < 60 && Quot(s, 3600) >= 0
    ensures s < 0 ==> -60 < Quot(Rem(s, 3600), 60) <= 0 && -60 < Rem(s, 60) <= 0 && Quot(s, 3600) <= 0
  {
    var n := if s >= 0 then s else -s;
    // on the magnitude, Swift's and Dafny's division agree
    assert n % 3600 % 60 == n % 60;
    assert n % 3600 / 60 < 60;
    assert n / 3600 * 3600 + n % 3600 / 60 * 60 + n % 60 == n;
  }
}
