/** `investment_advice` (AB_degil_01/app.py:94-102): compares the model's fair
    value with the asking price against a percentage threshold. */
module Advice {

  /** `eps = 1e-9`, exactly. */
  const Eps: real := 1.0 / 1000000000.0

  datatype Verdict = Firsat | Pahali | Normal

  /** The percentage by which the fair value exceeds the asking price. */
  function DeltaPct(price: real, fair: real): real
    requires price > 0.0
  {
    (fair - price) / (price + Eps) * 100.0
  }

  /** `investment_advice(listing_price, fair_value)` with the bundle's threshold. */
  function InvestmentAdvice(price: real, fair: real, threshold: real): (r: (Verdict, real))
    ensures price <= 0.0 ==> r == (Normal, 0.0)
  {
    if price <= 0.0 then (Normal, 0.0)
    else
      var delta := DeltaPct(price, fair);
      if delta > threshold then (Firsat, delta)
      else if delta < -threshold then (Pahali, delta)
      else (Normal, delta)
  }

  /** The verdicts without division: an opportunity when the fair value is
      more than `threshold` percent (of price + eps) above the price,
      overpriced when it is that far below, normal otherwise. */
  lemma AdviceByMargin(price: real, fair: real, threshold: real)
    requires price > 0.0
    ensures var (v, _) := InvestmentAdvice(price, fair, threshold);
      var m := (fair - price) * 100.0;
      var t := threshold * (price + Eps);
      && (v == Firsat <==> m > t)
      && (v == Pahali <==> m <= t && m < -t)
      && (v == Normal <==> -t <= m <= t)
  {
    var d := price + Eps;
    var m := (fair - price) * 100.0;
    var delta := DeltaPct(price, fair);
    assert delta * d == m by {
      assert delta == m / d;
    }
    ScaleKeepsOrder(delta, threshold, d);
    ScaleKeepsOrder(-threshold, delta, d);
  }

  /** Multiplying by a positive number keeps a strict order, both ways. */
  lemma ScaleKeepsOrder(a: real, b: real, d: real)
    requires d > 0.0
    ensures a > b <==> a * d > b * d
  {
    if a > b {
      assert (a - b) * d > 0.0;
    } else {
      assert (b - a) * d >= 0.0;
    }
  }

  /** The delta has the sign of `fair - price`. */
  lemma DeltaSign(price: real, fair: real)
    requires price > 0.0
    ensures DeltaPct(price, fair) > 0.0 <==> fair > price
    ensures DeltaPct(price, fair) == 0.0 <==> fair == price
  {
    var d := price + Eps;
    var m := (fair - price) * 100.0;
    assert DeltaPct(price, fair) * d == m;
    ScaleKeepsOrder(DeltaPct(price, fair), 0.0, d);
  }

  /** A fair value equal to the price gives a delta of 0, which is normal for a
      non-negative threshold. */
  lemma AdviceAtPrice(price: real, threshold: real)
    requires price > 0.0 && threshold >= 0.0
    ensures InvestmentAdvice(price, price, threshold) == (Normal, 0.0)
  {
    DeltaSign(price, price);
  }

  function Rank(v: Verdict): int {
    match v
    case Pahali => 0
    case Normal => 1
    case Firsat => 2
  }

  /** A higher fair value never gives a worse verdict or a smaller delta. */
  lemma AdviceMonotone(price: real, fair1: real, fair2: real, threshold: real)
    requires fair1 <= fair2
    ensures InvestmentAdvice(price, fair1, threshold).1 <= InvestmentAdvice(price, fair2, threshold).1
    ensures Rank(InvestmentAdvice(price, fair1, threshold).0) <= Rank(InvestmentAdvice(price, fair2, threshold).0)
  {
    if price > 0.0 {
      var d := price + Eps;
      DivideKeepsOrder(fair1 - price, fair2 - price, d);
      assert DeltaPct(price, fair1) <= DeltaPct(price, fair2);
    }
  }

  /** Dividing by a positive number keeps the order. */
  lemma DivideKeepsOrder(a: real, b: real, d: real)
    requires a <= b && d > 0.0
    ensures a / d * 100.0 <= b / d * 100.0
  {
    assert b / d - a / d == (b - a) / d;
  }

  /** With threshold 10 and price 100: 110 is normal (the delta is just below
      10 because of eps), 111 an opportunity, 89 overpriced; a zero price is
      normal with delta 0. */
  lemma AdviceExamples()
    ensures InvestmentAdvice(100.0, 110.0, 10.0).0 == Normal
    ensures InvestmentAdvice(100.0, 111.0, 10.0).0 == Firsat
    ensures InvestmentAdvice(100.0, 89.0, 10.0).0 == Pahali
    ensures InvestmentAdvice(0.0, 111.0, 10.0) == (Normal, 0.0)
  {
    AdviceByMargin(100.0, 110.0, 10.0);
    AdviceByMargin(100.0, 111.0, 10.0);
    AdviceByMargin(100.0, 89.0, 10.0);
  }
}
