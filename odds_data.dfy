/**
 * The typed form of one sport's odds payload, as find_arbitrage_opportunities
 * reads it (get_odds/get_odds.py), and the record it produces.
 *
 * The source reads the loosely typed JSON with `.get` defaults (a missing
 * team is "Unknown", a missing price 0, a missing name "", a missing title
 * "Unknown"); here those defaults are applied when the payload is turned
 * into these datatypes.
 */
module OddsData {

  datatype Outcome = Outcome(name: string, price: real)
  datatype Market = Market(key: string, outcomes: seq<Outcome>)
  datatype Bookmaker = Bookmaker(title: string, markets: seq<Market>)
  datatype Game = Game(sportKey: string, homeTeam: string, awayTeam: string,
                       commenceTime: string, bookmakers: seq<Bookmaker>)

  /** The moneyline market, the only one the detector reads. */
  const MoneylineKey: string := "h2h"

  /** One outcome of a moneyline market, tagged with the title of the bookmaker quoting it. */
  datatype Offer = Offer(bookmaker: string, name: string, price: real)

  /** One detected opportunity: the dictionary appended at get_odds/get_odds.py:128-150, at full precision. */
  datatype Opportunity = Opportunity(
    sportKey: string, sportName: string, game: string,
    homeTeam: string, awayTeam: string,
    commenceTimeUtc: string, commenceTimeEst: string,
    isLive: bool, status: string,
    bestHomeOdds: real, bestAwayOdds: real,
    homeBookmaker: string, awayBookmaker: string,
    totalImpliedProbability: real, profitMarginPercent: real,
    homeStake: real, awayStake: real, totalStake: real,
    guaranteedProfit: real)

  function OutcomeOffers(title: string, outcomes: seq<Outcome>): (r: seq<Offer>)
    ensures |r| == |outcomes|
  {
    seq(|outcomes|, k requires 0 <= k < |outcomes| => Offer(title, outcomes[k].name, outcomes[k].price))
  }

  /** The offers of one market: its outcomes when it is the moneyline market, nothing otherwise. */
  function MarketOffers(title: string, market: Market): seq<Offer>
  {
    if market.key == MoneylineKey then OutcomeOffers(title, market.outcomes) else []
  }

  function MarketsOffers(title: string, markets: seq<Market>): seq<Offer>
    decreases |markets|
  {
    if markets == [] then []
    else MarketsOffers(title, markets[..|markets| - 1]) + MarketOffers(title, markets[|markets| - 1])
  }

  /** Every moneyline offer of every bookmaker, in the order the nested loops of the detector visit them. */
  function Offers(bookmakers: seq<Bookmaker>): seq<Offer>
    decreases |bookmakers|
  {
    if bookmakers == [] then []
    else
      var last := bookmakers[|bookmakers| - 1];
      Offers(bookmakers[..|bookmakers| - 1]) + MarketsOffers(last.title, last.markets)
  }

  lemma {:induction false} MarketsOffersAppend(title: string, xs: seq<Market>, ys: seq<Market>)
    ensures MarketsOffers(title, xs + ys) == MarketsOffers(title, xs) + MarketsOffers(title, ys)
    decreases |ys|
  {
    if ys == [] {
      assert xs + ys == xs;
    } else {
      var n := |ys|;
      var init, last := ys[..n - 1], ys[n - 1];
      assert (xs + ys)[..|xs + ys| - 1] == xs + init;
      assert (xs + ys)[|xs + ys| - 1] == last;
      MarketsOffersAppend(title, xs, init);
      calc {
        MarketsOffers(title, xs + ys);
        MarketsOffers(title, xs + init) + MarketOffers(title, last);
        (MarketsOffers(title, xs) + MarketsOffers(title, init)) + MarketOffers(title, last);
        MarketsOffers(title, xs) + (MarketsOffers(title, init) + MarketOffers(title, last));
      }
    }
  }

  /** A market whose key is not "h2h" contributes nothing, wherever it stands in a bookmaker's list. */
  lemma NonMoneylineMarketIgnored(title: string, before: seq<Market>, market: Market, after: seq<Market>)
    requires market.key != MoneylineKey
    ensures MarketsOffers(title, before + [market] + after) == MarketsOffers(title, before + after)
  {
    assert MarketsOffers(title, [market]) == [] by {
      assert [market][..0] == [];
    }
    calc {
      MarketsOffers(title, before + [market] + after);
      { MarketsOffersAppend(title, before + [market], after); }
      MarketsOffers(title, before + [market]) + MarketsOffers(title, after);
      { MarketsOffersAppend(title, before, [market]); }
      MarketsOffers(title, before) + MarketsOffers(title, after);
      { MarketsOffersAppend(title, before, after); }
      MarketsOffers(title, before + after);
    }
  }

  /** Every price a bookmaker quotes is at least zero: decimal odds, or the 0 of a missing price. */
  ghost predicate NonNegativePrices(bookmakers: seq<Bookmaker>)
  {
    forall b, m, o :: b in bookmakers && m in b.markets && o in m.outcomes ==> o.price >= 0.0
  }

  lemma {:induction false} OffersKeepNonNegativePrices(bookmakers: seq<Bookmaker>)
    requires NonNegativePrices(bookmakers)
    ensures forall k :: 0 <= k < |Offers(bookmakers)| ==> Offers(bookmakers)[k].price >= 0.0
    decreases |bookmakers|
  {
    if bookmakers != [] {
      var n := |bookmakers|;
      var last := bookmakers[n - 1];
      assert NonNegativePrices(bookmakers[..n - 1]) by {
        forall b | b in bookmakers[..n - 1] ensures b in bookmakers { }
      }
      OffersKeepNonNegativePrices(bookmakers[..n - 1]);
      MarketsKeepNonNegativePrices(last.title, last.markets);
    }
  }

  lemma {:induction false} MarketsKeepNonNegativePrices(title: string, markets: seq<Market>)
    requires forall m, o :: m in markets && o in m.outcomes ==> o.price >= 0.0
    ensures forall k :: 0 <= k < |MarketsOffers(title, markets)| ==> MarketsOffers(title, markets)[k].price >= 0.0
    decreases |markets|
  {
    if markets != [] {
      var n := |markets|;
      MarketsKeepNonNegativePrices(title, markets[..n - 1]);
      var last := markets[n - 1];
      forall k | 0 <= k < |MarketOffers(title, last)| ensures MarketOffers(title, last)[k].price >= 0.0 {
        assert last.outcomes[k] in last.outcomes;
      }
    }
  }
}
