/**
 * The arbitrage test and the stake split of find_arbitrage_opportunities
 * (get_odds/get_odds.py:108-126), on exact reals.
 */
module Arbitrage {
  import opened Wrappers
  import opened Helpers
  import opened BestPrice

  /** The fixed total stake the split is computed for. */
  const TotalStake: real := 100.0

  /** The figures computed for a game that passes the arbitrage test. */
  datatype Figures = Figures(totalProbability: real, profitMarginPercent: real,
                             homeStake: real, awayStake: real, guaranteedProfit: real)

  /**
   * What the arithmetic makes of one game's best prices. DivisionByZero is
   * the ZeroDivisionError the source raises when the implied probabilities
   * cancel out, which only a negative price can cause.
   */
  datatype Assessment = NoArbitrage | DivisionByZero | Arbitrage(figures: Figures)

  /** The truthiness test `if best_home_odds and best_away_odds`: no quote and a price of 0 both fail it. */
  predicate Priced(best: Option<Quote>)
  {
    best.Some? && best.value.price != 0.0
  }

  function Min(x: real, y: real): (m: real)
    ensures m <= x && m <= y && (m == x || m == y)
  {
    if y < x then y else x
  }

  function Assess(bestHome: Option<Quote>, bestAway: Option<Quote>): (v: Assessment)
    ensures !v.NoArbitrage? <==>
              Priced(bestHome) && Priced(bestAway) &&
              1.0 / bestHome.value.price + 1.0 / bestAway.value.price < 1.0
    ensures v.DivisionByZero? <==>
              Priced(bestHome) && Priced(bestAway) &&
              bestAway.value.price == -bestHome.value.price
    ensures v.Arbitrage? ==> v.figures.totalProbability == 1.0 / bestHome.value.price + 1.0 / bestAway.value.price
  {
    if !(Priced(bestHome) && Priced(bestAway)) then NoArbitrage
    else
      var homePrice, awayPrice := bestHome.value.price, bestAway.value.price;
      var homeProbability := DecimalToProbability(homePrice);
      var awayProbability := DecimalToProbability(awayPrice);
      var total := homeProbability + awayProbability;
      if !(total < 1.0) then NoArbitrage
      else if total == 0.0 then DivisionByZero
      else
        var margin := (1.0 - total) * 100.0;
        var homeStake := (homeProbability / total) * TotalStake;
        var awayStake := (awayProbability / total) * TotalStake;
        var homePayout := homeStake * homePrice;
        var awayPayout := awayStake * awayPrice;
        Arbitrage(Figures(total, margin, homeStake, awayStake, Min(homePayout, awayPayout) - TotalStake))
  }

  /**
   * The split is an equal-payout split: the stakes add up to the total,
   * either result pays the total divided by the combined implied
   * probability, and the guaranteed profit is what that pays above the stake.
   */
  ghost predicate PaysEqually(homePrice: real, awayPrice: real, f: Figures)
  {
    f.totalProbability != 0.0 &&
    f.homeStake + f.awayStake == TotalStake &&
    f.homeStake * homePrice == TotalStake / f.totalProbability &&
    f.awayStake * awayPrice == TotalStake / f.totalProbability &&
    f.guaranteedProfit == TotalStake / f.totalProbability - TotalStake &&
    f.guaranteedProfit * f.totalProbability == f.profitMarginPercent &&
    0.0 < f.profitMarginPercent &&
    (f.guaranteedProfit > 0.0 <==> f.totalProbability > 0.0)
  }

  /** The split of two non-zero prices whose implied probabilities p and q have a non-zero sum. */
  lemma SplitAlgebra(homePrice: real, awayPrice: real)
    requires homePrice != 0.0 && awayPrice != 0.0 && 1.0 / homePrice + 1.0 / awayPrice != 0.0
    ensures var p, q := 1.0 / homePrice, 1.0 / awayPrice;
            var t := p + q;
            (p / t) * TotalStake + (q / t) * TotalStake == TotalStake &&
            ((p / t) * TotalStake) * homePrice == TotalStake / t &&
            ((q / t) * TotalStake) * awayPrice == TotalStake / t
  {
    var p, q := 1.0 / homePrice, 1.0 / awayPrice;
    var t := p + q;
    assert p * homePrice == 1.0;
    assert q * awayPrice == 1.0;
    calc {
      ((p / t) * TotalStake) * homePrice;
      (p * homePrice) * (TotalStake / t);
      TotalStake / t;
    }
    calc {
      ((q / t) * TotalStake) * awayPrice;
      (q * awayPrice) * (TotalStake / t);
      TotalStake / t;
    }
    calc {
      (p / t) * TotalStake + (q / t) * TotalStake;
      ((p + q) / t) * TotalStake;
      TotalStake;
    }
  }

  /** A game that passes the test is split so that it pays the same whichever side wins. */
  lemma ArbitragePaysEqually(bestHome: Option<Quote>, bestAway: Option<Quote>)
    requires Assess(bestHome, bestAway).Arbitrage?
    ensures PaysEqually(bestHome.value.price, bestAway.value.price, Assess(bestHome, bestAway).figures)
  {
    var h, a := bestHome.value.price, bestAway.value.price;
    var f := Assess(bestHome, bestAway).figures;
    var t := f.totalProbability;
    SplitAlgebra(h, a);
    assert f.guaranteedProfit == TotalStake / t - TotalStake;
    calc {
      f.guaranteedProfit * t;
      (TotalStake / t) * t - TotalStake * t;
      TotalStake - TotalStake * t;
      (1.0 - t) * 100.0;
    }
    if t > 0.0 {
      assert 1.0 / t > 1.0 by { assert (1.0 / t) * t == 1.0; }
    } else {
      assert TotalStake / t < 0.0;
    }
  }

  /**
   * With positive prices the test never divides by zero, and an
   * opportunity it reports has positive stakes and a positive profit.
   */
  lemma PositivePricesProfit(bestHome: Option<Quote>, bestAway: Option<Quote>)
    requires bestHome.Some? && bestAway.Some? && bestHome.value.price > 0.0 && bestAway.value.price > 0.0
    ensures !Assess(bestHome, bestAway).DivisionByZero?
    ensures Assess(bestHome, bestAway).Arbitrage? ==>
              var f := Assess(bestHome, bestAway).figures;
              0.0 < f.homeStake && 0.0 < f.awayStake && 0.0 < f.guaranteedProfit
  {
    var h, a := bestHome.value.price, bestAway.value.price;
    assert 1.0 / h > 0.0 && 1.0 / a > 0.0;
    if Assess(bestHome, bestAway).Arbitrage? {
      ArbitragePaysEqually(bestHome, bestAway);
      var f := Assess(bestHome, bestAway).figures;
      var t := f.totalProbability;
      assert f.homeStake == ((1.0 / h) / t) * TotalStake;
      assert (1.0 / h) / t > 0.0;
      assert (1.0 / a) / t > 0.0;
    }
  }

  /**
   * The guard tests only for a zero price: opposite prices cancel out and
   * divide by zero, and a negative price can pass the test with a loss.
   */
  lemma NegativePriceExamples()
    ensures Assess(Some(Quote(2.0, "A")), Some(Quote(-2.0, "B"))) == DivisionByZero
    ensures Assess(Some(Quote(2.0, "A")), Some(Quote(-1.0, "B"))) ==
            Arbitrage(Figures(-0.5, 150.0, -100.0, 200.0, -300.0))
  {
  }
}
