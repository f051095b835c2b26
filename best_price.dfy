/**
 * The best-price scan of find_arbitrage_opportunities
 * (get_odds/get_odds.py:84-106): over every bookmaker's moneyline market,
 * the highest price quoted for the home team and for the away team, and the
 * bookmaker quoting it.
 */
module BestPrice {
  import opened Wrappers
  import opened OddsData

  datatype Side = Home | Away

  /** A best price so far and the title of the bookmaker that offered it. */
  datatype Quote = Quote(price: real, bookmaker: string)

  /**
   * Whether an outcome named `name` is tracked for `side`. The home name is
   * tested first and the away name only in the `elif`, so a name equal to
   * both teams is tracked for home alone.
   */
  predicate CountsFor(side: Side, name: string, home: string, away: string)
  {
    match side
    case Home => name == home
    case Away => name != home && name == away
  }

  /** One update of a running best: a strictly higher price replaces it, so the earlier offer keeps a tie. */
  function Track(best: Option<Quote>, offer: Offer): Option<Quote>
  {
    if best.None? || offer.price > best.value.price then Some(Quote(offer.price, offer.bookmaker)) else best
  }

  /** The running best for `side` after visiting `offers` in order. */
  function BestOf(offers: seq<Offer>, home: string, away: string, side: Side): Option<Quote>
    decreases |offers|
  {
    if offers == [] then None
    else
      var last := offers[|offers| - 1];
      var prior := BestOf(offers[..|offers| - 1], home, away, side);
      if CountsFor(side, last.name, home, away) then Track(prior, last) else prior
  }

  /** No offer tracked for `side` quotes more than `price`. */
  ghost predicate Bounds(offers: seq<Offer>, home: string, away: string, side: Side, price: real)
  {
    forall j :: 0 <= j < |offers| && CountsFor(side, offers[j].name, home, away) ==> offers[j].price <= price
  }

  /** Offer `i` is tracked for `side`, quotes `q`, and every tracked offer before it quotes less. */
  ghost predicate FirstToQuote(offers: seq<Offer>, home: string, away: string, side: Side, q: Quote, i: int)
  {
    0 <= i < |offers| && CountsFor(side, offers[i].name, home, away) &&
    offers[i].price == q.price && offers[i].bookmaker == q.bookmaker &&
    forall j :: 0 <= j < i && CountsFor(side, offers[j].name, home, away) ==> offers[j].price < q.price
  }

  /**
   * `q` is the highest price among the offers tracked for `side`, and comes
   * from the first such offer, in visiting order, that quotes that price.
   */
  ghost predicate IsFirstMaximum(offers: seq<Offer>, home: string, away: string, side: Side, q: Quote)
  {
    Bounds(offers, home, away, side, q.price) && exists i :: FirstToQuote(offers, home, away, side, q, i)
  }

  lemma BestOfSnoc(offers: seq<Offer>, offer: Offer, home: string, away: string, side: Side)
    ensures BestOf(offers + [offer], home, away, side) ==
            if CountsFor(side, offer.name, home, away) then Track(BestOf(offers, home, away, side), offer)
            else BestOf(offers, home, away, side)
  {
    assert (offers + [offer])[..|offers|] == offers;
  }

  /** The scan finds nothing exactly when no offer is tracked for the side. */
  lemma {:induction false} BestOfNoneIffUntracked(offers: seq<Offer>, home: string, away: string, side: Side)
    ensures BestOf(offers, home, away, side).None? <==>
            forall k :: 0 <= k < |offers| ==> !CountsFor(side, offers[k].name, home, away)
    decreases |offers|
  {
    if offers != [] {
      var n := |offers|;
      BestOfNoneIffUntracked(offers[..n - 1], home, away, side);
      assert forall k :: 0 <= k < n - 1 ==> offers[k] == offers[..n - 1][k];
    }
  }

  /** What the scan finds is at least every price tracked for the side. */
  lemma {:induction false} BestOfBounds(offers: seq<Offer>, home: string, away: string, side: Side)
    requires BestOf(offers, home, away, side).Some?
    ensures Bounds(offers, home, away, side, BestOf(offers, home, away, side).value.price)
    decreases |offers|
  {
    var n := |offers|;
    var prior := offers[..n - 1];
    var q := BestOf(offers, home, away, side).value;
    if BestOf(prior, home, away, side).Some? {
      BestOfBounds(prior, home, away, side);
      assert BestOf(prior, home, away, side).value.price <= q.price;
    } else {
      BestOfNoneIffUntracked(prior, home, away, side);
    }
    forall j | 0 <= j < n && CountsFor(side, offers[j].name, home, away) ensures offers[j].price <= q.price {
      if j < n - 1 {
        assert offers[j] == prior[j];
      }
    }
  }

  /** What the scan finds is quoted by the first tracked offer to reach that price. */
  lemma {:induction false} BestOfFirstToQuote(offers: seq<Offer>, home: string, away: string, side: Side)
    requires BestOf(offers, home, away, side).Some?
    ensures exists i :: FirstToQuote(offers, home, away, side, BestOf(offers, home, away, side).value, i)
    decreases |offers|
  {
    var n := |offers|;
    var prior := offers[..n - 1];
    var last := offers[n - 1];
    var q := BestOf(offers, home, away, side).value;
    var before := BestOf(prior, home, away, side);
    if before.Some? && before.value == q {
      BestOfFirstToQuote(prior, home, away, side);
      var i :| FirstToQuote(prior, home, away, side, q, i);
      assert forall j :: 0 <= j <= i ==> offers[j] == prior[j];
      assert FirstToQuote(offers, home, away, side, q, i);
    } else {
      if before.Some? {
        BestOfBounds(prior, home, away, side);
      } else {
        BestOfNoneIffUntracked(prior, home, away, side);
      }
      forall j | 0 <= j < n - 1 && CountsFor(side, offers[j].name, home, away) ensures offers[j].price < q.price {
        assert offers[j] == prior[j];
      }
      assert FirstToQuote(offers, home, away, side, q, n - 1);
    }
  }

  /**
   * The scan finds nothing exactly when no offer is tracked for the side;
   * otherwise it finds the maximum price and the first bookmaker to quote it.
   */
  lemma BestOfIsFirstMaximum(offers: seq<Offer>, home: string, away: string, side: Side)
    ensures BestOf(offers, home, away, side).None? <==>
            forall k :: 0 <= k < |offers| ==> !CountsFor(side, offers[k].name, home, away)
    ensures BestOf(offers, home, away, side).Some? ==>
            IsFirstMaximum(offers, home, away, side, BestOf(offers, home, away, side).value)
  {
    BestOfNoneIffUntracked(offers, home, away, side);
    if BestOf(offers, home, away, side).Some? {
      BestOfBounds(offers, home, away, side);
      BestOfFirstToQuote(offers, home, away, side);
    }
  }

  /** An outcome naming neither team changes neither best, wherever it stands. */
  lemma {:induction false} UnmatchedOfferIgnored(before: seq<Offer>, offer: Offer, after: seq<Offer>,
                                                 home: string, away: string, side: Side)
    requires offer.name != home && offer.name != away
    ensures BestOf(before + [offer] + after, home, away, side) == BestOf(before + after, home, away, side)
    decreases |after|
  {
    if after == [] {
      assert before + [offer] + after == before + [offer];
      assert before + after == before;
      BestOfSnoc(before, offer, home, away, side);
    } else {
      var n := |after|;
      var last := after[n - 1];
      assert before + [offer] + after == (before + [offer] + after[..n - 1]) + [last];
      assert before + after == (before + after[..n - 1]) + [last];
      UnmatchedOfferIgnored(before, offer, after[..n - 1], home, away, side);
      BestOfSnoc(before + [offer] + after[..n - 1], last, home, away, side);
      BestOfSnoc(before + after[..n - 1], last, home, away, side);
    }
  }

  /** With equal team names nothing is tracked for away, so the away side stays unpriced. */
  lemma SameNamesLeaveAwayUnpriced(offers: seq<Offer>, team: string)
    ensures BestOf(offers, team, team, Away) == None
  {
    BestOfNoneIffUntracked(offers, team, team, Away);
  }

  /**
   * The nested loops of get_odds/get_odds.py:89-106: every bookmaker, every
   * market keyed "h2h", every outcome; a strictly higher price for the home
   * name, or else for the away name, replaces that side's best.
   */
  method ScanBestPrices(home: string, away: string, bookmakers: seq<Bookmaker>)
    returns (bestHome: Option<Quote>, bestAway: Option<Quote>)
    ensures bestHome == BestOf(Offers(bookmakers), home, away, Home)
    ensures bestAway == BestOf(Offers(bookmakers), home, away, Away)
  {
    bestHome, bestAway := None, None;
    var i := 0;
    while i < |bookmakers|
      invariant 0 <= i <= |bookmakers|
      invariant bestHome == BestOf(Offers(bookmakers[..i]), home, away, Home)
      invariant bestAway == BestOf(Offers(bookmakers[..i]), home, away, Away)
    {
      assert bookmakers[..i + 1][..i] == bookmakers[..i];
      bestHome, bestAway := ScanMarkets(home, away, bookmakers[i], bestHome, bestAway, Offers(bookmakers[..i]));
      i := i + 1;
    }
    assert bookmakers[..i] == bookmakers;
  }

  lemma MarketsOffersSnoc(seen: seq<Offer>, title: string, markets: seq<Market>, j: nat)
    requires j < |markets|
    ensures seen + MarketsOffers(title, markets[..j + 1]) ==
            if markets[j].key == MoneylineKey
            then (seen + MarketsOffers(title, markets[..j])) + OutcomeOffers(title, markets[j].outcomes)
            else seen + MarketsOffers(title, markets[..j])
  {
    assert markets[..j + 1][..j] == markets[..j];
  }

  /** The loop over one bookmaker's markets (get_odds/get_odds.py:90-92), continuing the bests found over `seen`. */
  method ScanMarkets(home: string, away: string, bookmaker: Bookmaker,
                     homeSoFar: Option<Quote>, awaySoFar: Option<Quote>, ghost seen: seq<Offer>)
    returns (bestHome: Option<Quote>, bestAway: Option<Quote>)
    requires homeSoFar == BestOf(seen, home, away, Home) && awaySoFar == BestOf(seen, home, away, Away)
    ensures bestHome == BestOf(seen + MarketsOffers(bookmaker.title, bookmaker.markets), home, away, Home)
    ensures bestAway == BestOf(seen + MarketsOffers(bookmaker.title, bookmaker.markets), home, away, Away)
  {
    bestHome, bestAway := homeSoFar, awaySoFar;
    var j := 0;
    assert seen + MarketsOffers(bookmaker.title, bookmaker.markets[..j]) == seen;
    while j < |bookmaker.markets|
      invariant 0 <= j <= |bookmaker.markets|
      invariant bestHome == BestOf(seen + MarketsOffers(bookmaker.title, bookmaker.markets[..j]), home, away, Home)
      invariant bestAway == BestOf(seen + MarketsOffers(bookmaker.title, bookmaker.markets[..j]), home, away, Away)
    {
      var market := bookmaker.markets[j];
      ghost var scanned := seen + MarketsOffers(bookmaker.title, bookmaker.markets[..j]);
      MarketsOffersSnoc(seen, bookmaker.title, bookmaker.markets, j);
      if market.key == MoneylineKey {
        bestHome, bestAway := ScanOutcomes(home, away, bookmaker.title, market.outcomes, bestHome, bestAway, scanned);
      }
      j := j + 1;
    }
    assert bookmaker.markets[..j] == bookmaker.markets;
  }

  /** The loop over one moneyline market's outcomes (get_odds/get_odds.py:93-106). */
  method ScanOutcomes(home: string, away: string, title: string, outcomes: seq<Outcome>,
                      homeSoFar: Option<Quote>, awaySoFar: Option<Quote>, ghost seen: seq<Offer>)
    returns (bestHome: Option<Quote>, bestAway: Option<Quote>)
    requires homeSoFar == BestOf(seen, home, away, Home) && awaySoFar == BestOf(seen, home, away, Away)
    ensures bestHome == BestOf(seen + OutcomeOffers(title, outcomes), home, away, Home)
    ensures bestAway == BestOf(seen + OutcomeOffers(title, outcomes), home, away, Away)
  {
    bestHome, bestAway := homeSoFar, awaySoFar;
    var k := 0;
    assert seen + OutcomeOffers(title, outcomes[..k]) == seen;
    while k < |outcomes|
      invariant 0 <= k <= |outcomes|
      invariant bestHome == BestOf(seen + OutcomeOffers(title, outcomes[..k]), home, away, Home)
      invariant bestAway == BestOf(seen + OutcomeOffers(title, outcomes[..k]), home, away, Away)
    {
      var outcome := outcomes[k];
      ghost var offer := Offer(title, outcome.name, outcome.price);
      ghost var scanned := seen + OutcomeOffers(title, outcomes[..k]);
      assert seen + OutcomeOffers(title, outcomes[..k + 1]) == scanned + [offer];
      BestOfSnoc(scanned, offer, home, away, Home);
      BestOfSnoc(scanned, offer, home, away, Away);
      if outcome.name == home {
        if bestHome.None? || outcome.price > bestHome.value.price {
          bestHome := Some(Quote(outcome.price, title));
        }
      } else if outcome.name == away {
        if bestAway.None? || outcome.price > bestAway.value.price {
          bestAway := Some(Quote(outcome.price, title));
        }
      }
      k := k + 1;
    }
    assert outcomes[..k] == outcomes;
  }
}
