/** Python's `abs` and `round` on exact real numbers. */
module Numbers {

  function Abs(x: real): real {
    if x < 0.0 then -x else x
  }

  /** Round to the nearest integer, halves to the even one. */
  function RoundHalfEven(x: real): int {
    var below := x.Floor;
    var rest := x - below as real;
    if rest < 0.5 then below
    else if rest > 0.5 then below + 1
    else if below % 2 == 0 then below else below + 1
  }

  /** `round(x, 4)`. */
  function Round4(x: real): real {
    RoundHalfEven(x * 10000.0) as real / 10000.0
  }

  lemma RoundingIsMonotone(x: real, y: real)
    requires x <= y
    ensures Round4(x) <= Round4(y)
  {
    var a, b := x * 10000.0, y * 10000.0;
    assert a <= b;
    assert a.Floor <= b.Floor;
    assert RoundHalfEven(a) <= RoundHalfEven(b);
  }

  lemma FourDigitsStay(k: int)
    ensures Round4(k as real / 10000.0) == k as real / 10000.0
  {
    var x := k as real / 10000.0;
    assert x * 10000.0 == k as real;
    assert (k as real).Floor == k;
  }

  /** Rounding gives four digits, at most half a digit away; exactly half-way it gives an even last digit. */
  lemma RoundingIsToTheNearest(x: real) returns (k: int)
    ensures Round4(x) == k as real / 10000.0
    ensures -0.00005 <= Round4(x) - x <= 0.00005
    ensures Round4(x) - x == 0.00005 || x - Round4(x) == 0.00005 ==> k % 2 == 0
  {
    var scaled := x * 10000.0;
    k := RoundHalfEven(scaled);
    assert -0.5 <= k as real - scaled <= 0.5;
    assert Round4(x) == k as real / 10000.0;
    assert Round4(x) - x == (k as real - scaled) / 10000.0;
  }
}
