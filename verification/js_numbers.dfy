/** The JavaScript number operations the stop-loss decision relies on, in
    exact arithmetic: rounding to cents with `Math.round(x * 100) / 100`, and
    the ratio `pl / accountBalance` with its IEEE special values. */
module JsNumbers {

  /** A value that is a whole number of hundredths. */
  predicate IsCents(x: real)
  {
    (x * 100.0).Floor as real == x * 100.0
  }

  /** `Math.round(x * 100) / 100`: `Math.round` rounds half toward +infinity,
      so the result is the nearest cent value, ties going up. */
  function Round2(x: real): (r: real)
    ensures IsCents(r)
    ensures r - 0.005 <= x < r + 0.005
  {
    ((x * 100.0 + 0.5).Floor as real) / 100.0
  }

  /** Round2 is the only cent value within half a cent below / under half a
      cent above its argument: it rounds half up, and nothing else qualifies. */
  lemma Round2Unique(x: real, c: real)
    requires IsCents(c)
    requires c - 0.005 <= x < c + 0.005
    ensures Round2(x) == c
  {
    var r := Round2(x);
    var k := (r * 100.0).Floor;
    var m := (c * 100.0).Floor;
    assert k as real == r * 100.0;
    assert m as real == c * 100.0;
    assert -1.0 < (k - m) as real < 1.0;
  }

  /** Cent values are closed under addition, and re-rounding their sum to
      cents changes nothing. */
  lemma CentsSum(a: real, b: real)
    requires IsCents(a) && IsCents(b)
    ensures IsCents(a + b)
    ensures Round2(a + b) == a + b
  {
    var ka := (a * 100.0).Floor;
    var kb := (b * 100.0).Floor;
    assert (a + b) * 100.0 == (ka + kb) as real;
    assert IsCents(a + b);
    Round2Unique(a + b, a + b);
  }

  /** The value of `pl / balance` as a JavaScript number. */
  datatype Ratio = Finite(value: real) | PositiveInfinity | NegativeInfinity | NotANumber

  function Divide(numerator: real, denominator: real): (r: Ratio)
    ensures r.Finite? <==> denominator != 0.0
    ensures r.Finite? ==> r.value * denominator == numerator
    ensures denominator == 0.0 ==> (r == PositiveInfinity <==> numerator > 0.0)
    ensures denominator == 0.0 ==> (r == NegativeInfinity <==> numerator < 0.0)
  {
    if denominator != 0.0 then Finite(numerator / denominator)
    else if numerator > 0.0 then PositiveInfinity
    else if numerator < 0.0 then NegativeInfinity
    else NotANumber
  }

  /** JavaScript's `q < bound`; every comparison with NaN is false. */
  predicate Below(q: Ratio, bound: real)
  {
    match q
    case Finite(v) => v < bound
    case NegativeInfinity => true
    case PositiveInfinity => false
    case NotANumber => false
  }

  /** The stop-loss threshold `pl / balance < -0.01` in terms of the P/L:
      with a positive balance it is a loss of MORE than 1% of the balance,
      so a loss of exactly 1% does not qualify; with a zero balance any
      loss qualifies (the ratio is -Infinity) and nothing else does. */
  lemma ThresholdIsStrictLoss(pl: real, balance: real)
    ensures balance > 0.0 ==> (Below(Divide(pl, balance), -0.01) <==> 100.0 * pl < -balance)
    ensures balance > 0.0 && 100.0 * pl == -balance ==> !Below(Divide(pl, balance), -0.01)
    ensures balance == 0.0 ==> (Below(Divide(pl, balance), -0.01) <==> pl < 0.0)
  {
    if balance > 0.0 {
      var q := pl / balance;
      assert Divide(pl, balance) == Finite(q);
      assert q * balance == pl;
      if q < -0.01 {
        ScaleStrict(q, -0.01, balance);
        assert pl < -0.01 * balance;
      } else {
        ScaleWeak(-0.01, q, balance);
        assert -0.01 * balance <= pl;
      }
    }
  }

  lemma ScaleStrict(x: real, y: real, b: real)
    requires b > 0.0 && x < y
    ensures x * b < y * b
  {
  }

  lemma ScaleWeak(x: real, y: real, b: real)
    requires b > 0.0 && x <= y
    ensures x * b <= y * b
  {
  }
}
