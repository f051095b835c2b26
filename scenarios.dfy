/** Worked games for the detector. */
module Scenarios {
  import opened Wrappers
  import opened Helpers
  import opened OddsData
  import opened BestPrice
  import opened Arbitrage
  import opened Ranking
  import opened GetOdds

  /**
   * Two bookmakers: X is best on the home side at 2.10, Y on the away side at
   * 2.05; Y ties X at 2.10 on the home side and X keeps it; Y's spreads market and the draw outcome are ignored. The combined
   * implied probability is 830/861 and the margin 3100/861, stored as 3.6.
   */
  lemma SplitPricesScenario(game: Game, parse: string -> Option<EasternTime>, now: real)
    requires game == Game("basketball_nba", "Home", "Away", "t", [
                      Bookmaker("X", [Market("h2h", [Outcome("Home", 2.10), Outcome("Away", 1.80), Outcome("Draw", 9.0)])]),
                      Bookmaker("Y", [Market("spreads", [Outcome("Away", 7.0)]),
                                      Market("h2h", [Outcome("Home", 2.10), Outcome("Away", 2.05)])])])
    ensures EvaluateGame(game, parse, now).Found?
    ensures var o := EvaluateGame(game, parse, now).opportunity;
            o.homeBookmaker == "X" && o.bestHomeOdds == 2.10 &&
            o.awayBookmaker == "Y" && o.bestAwayOdds == 2.05 &&
            o.totalImpliedProbability == 830.0 / 861.0 && MarginKey(o) == 3.6
  {
    SplitPricesOffers(game.bookmakers[0], game.bookmakers[1]);
    assert game.bookmakers == [game.bookmakers[0], game.bookmakers[1]];
    PrefixBests(Offers(game.bookmakers), "Home", "Away");
    SplitPricesFigures();
  }

  lemma SplitPricesOffers(x: Bookmaker, y: Bookmaker)
    requires x == Bookmaker("X", [Market("h2h", [Outcome("Home", 2.10), Outcome("Away", 1.80), Outcome("Draw", 9.0)])])
    requires y == Bookmaker("Y", [Market("spreads", [Outcome("Away", 7.0)]),
                                  Market("h2h", [Outcome("Home", 2.10), Outcome("Away", 2.05)])])
    ensures Offers([x, y]) == [Offer("X", "Home", 2.10), Offer("X", "Away", 1.80), Offer("X", "Draw", 9.0),
                               Offer("Y", "Home", 2.10), Offer("Y", "Away", 2.05)]
  {
    assert [x, y][..1] == [x];
    assert y.markets[..1] == [y.markets[0]];
    assert x.markets[..0] == [] && y.markets[..0] == [] && [x, y][..1][..0] == [];
    assert MarketsOffers("X", x.markets) == [Offer("X", "Home", 2.10), Offer("X", "Away", 1.80), Offer("X", "Draw", 9.0)];
    assert MarketsOffers("Y", y.markets[..1]) == [];
    assert MarketsOffers("Y", y.markets) == [Offer("Y", "Home", 2.10), Offer("Y", "Away", 2.05)];
    assert Offers([x]) == MarketsOffers("X", x.markets);
    assert Offers([x, y]) == Offers([x]) + MarketsOffers("Y", y.markets);
  }

  /** 1/2.10 + 1/2.05 = 830/861; the margin 3100/861 = 3.6004... is stored as 3.6. */
  lemma SplitPricesFigures()
    ensures var v := Assess(Some(Quote(2.10, "X")), Some(Quote(2.05, "Y")));
            v.Arbitrage? && v.figures.totalProbability == 830.0 / 861.0 &&
            RoundCents(v.figures.profitMarginPercent) == 3.6
  {
    assert 1.0 / 2.10 + 1.0 / 2.05 == 830.0 / 861.0;
    var margin := (1.0 - 830.0 / 861.0) * 100.0;
    assert margin * 100.0 == 310000.0 / 861.0;
    assert 360.0 <= 310000.0 / 861.0 < 361.0;
    assert (310000.0 / 861.0).Floor == 360;
  }

  /** Best prices 1.80 and 2.00 imply more than certainty together: no opportunity. */
  lemma NoArbitrageScenario(game: Game, parse: string -> Option<EasternTime>, now: real)
    requires game == Game("icehockey_nhl", "Home", "Away", "t", [
                      Bookmaker("X", [Market("h2h", [Outcome("Home", 1.80), Outcome("Away", 1.95)])]),
                      Bookmaker("Y", [Market("h2h", [Outcome("Home", 1.75), Outcome("Away", 2.00)])])])
    ensures EvaluateGame(game, parse, now).Skipped?
  {
    var x, y := game.bookmakers[0], game.bookmakers[1];
    assert game.bookmakers == [x, y];
    assert [x, y][..1] == [x];
    var offers := [Offer("X", "Home", 1.80), Offer("X", "Away", 1.95), Offer("Y", "Home", 1.75), Offer("Y", "Away", 2.00)];
    assert x.markets[..0] == [] && y.markets[..0] == [] && [x, y][..1][..0] == [];
    assert MarketsOffers("X", x.markets) == offers[..2];
    assert MarketsOffers("Y", y.markets) == offers[2..];
    assert Offers([x]) == offers[..2];
    assert Offers(game.bookmakers) == offers;
    NoArbitrageBests(offers, "Home", "Away");
  }

  /** The running bests of the first scenario, offer by offer. */
  lemma PrefixBests(offers: seq<Offer>, home: string, away: string)
    requires offers == [Offer("X", home, 2.10), Offer("X", away, 1.80), Offer("X", "Draw", 9.0),
                        Offer("Y", home, 2.10), Offer("Y", away, 2.05)]
    requires home == "Home" && away == "Away"
    ensures BestOf(offers, home, away, Home) == Some(Quote(2.10, "X"))
    ensures BestOf(offers, home, away, Away) == Some(Quote(2.05, "Y"))
  {
    SnocBoth(offers, 0, home, away);
    SnocBoth(offers, 1, home, away);
    SnocBoth(offers, 2, home, away);
    SnocBoth(offers, 3, home, away);
    SnocBoth(offers, 4, home, away);
    assert offers[..5] == offers;
  }

  /** The running bests of the second scenario, offer by offer. */
  lemma NoArbitrageBests(offers: seq<Offer>, home: string, away: string)
    requires offers == [Offer("X", home, 1.80), Offer("X", away, 1.95), Offer("Y", home, 1.75), Offer("Y", away, 2.00)]
    requires home == "Home" && away == "Away"
    ensures BestOf(offers, home, away, Home) == Some(Quote(1.80, "X"))
    ensures BestOf(offers, home, away, Away) == Some(Quote(2.00, "Y"))
  {
    SnocBoth(offers, 0, home, away);
    SnocBoth(offers, 1, home, away);
    SnocBoth(offers, 2, home, away);
    SnocBoth(offers, 3, home, away);
    assert offers[..4] == offers;
  }

  lemma SnocBoth(offers: seq<Offer>, k: nat, home: string, away: string)
    requires k < |offers|
    ensures BestOf(offers[..k + 1], home, away, Home) ==
            if CountsFor(Home, offers[k].name, home, away) then Track(BestOf(offers[..k], home, away, Home), offers[k])
            else BestOf(offers[..k], home, away, Home)
    ensures BestOf(offers[..k + 1], home, away, Away) ==
            if CountsFor(Away, offers[k].name, home, away) then Track(BestOf(offers[..k], home, away, Away), offers[k])
            else BestOf(offers[..k], home, away, Away)
  {
    assert offers[..k + 1] == offers[..k] + [offers[k]];
    BestOfSnoc(offers[..k], offers[k], home, away, Home);
    BestOfSnoc(offers[..k], offers[k], home, away, Away);
  }
}
