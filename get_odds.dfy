/**
 * GetOdds.find_arbitrage_opportunities (get_odds/get_odds.py:55-155): for
 * each game of one sport, the best price per side, the arbitrage test, the
 * stake split and the record; then the records ranked by margin.
 */
module GetOdds {
  import opened Wrappers
  import opened Helpers
  import opened OddsData
  import opened BestPrice
  import opened Arbitrage
  import opened Ranking

  /** Display names of the sports the scanner knows. */
  const SportNames: map<string, string> :=
    map["basketball_nba" := "NBA", "baseball_mlb" := "MLB",
        "americanfootball_nfl" := "NFL", "icehockey_nhl" := "NHL"]

  /** `SPORT_NAMES.get(sport_key, sport_key)`. */
  function SportName(sportKey: string): (name: string)
    ensures sportKey in SportNames ==> name == SportNames[sportKey]
    ensures sportKey !in SportNames ==> name == sportKey
  {
    if sportKey in SportNames then SportNames[sportKey] else sportKey
  }

  /** What one game contributes: nothing, a record, or the ZeroDivisionError that aborts the whole call. */
  datatype GameResult = Skipped | Found(opportunity: Opportunity) | Crashed

  /** The outcome of one call: the ranked records, or the index of the game whose division by zero aborted it. */
  datatype Detection = Completed(opportunities: seq<Opportunity>) | ZeroDivision(gameIndex: nat)

  /** The dictionary built at get_odds/get_odds.py:128-150, before display rounding. */
  function Record(game: Game, parse: string -> Option<EasternTime>, now: real,
                  home: Quote, away: Quote, f: Figures): (o: Opportunity)
    ensures o.sportName == SportName(game.sportKey)
    ensures o.game == game.awayTeam + " @ " + game.homeTeam
    ensures o.isLive == IsGameLive(game.commenceTime, parse, now, DefaultMaxGameDurationHours)
    ensures o.status == (if o.isLive then "LIVE" else "UPCOMING")
    ensures o.commenceTimeEst == ConvertToEst(game.commenceTime, parse).display
  {
    var isLive := IsGameLive(game.commenceTime, parse, now, DefaultMaxGameDurationHours);
    Opportunity(
      game.sportKey, SportName(game.sportKey), game.awayTeam + " @ " + game.homeTeam,
      game.homeTeam, game.awayTeam,
      game.commenceTime, ConvertToEst(game.commenceTime, parse).display,
      isLive, if isLive then "LIVE" else "UPCOMING",
      home.price, away.price, home.bookmaker, away.bookmaker,
      f.totalProbability, f.profitMarginPercent,
      f.homeStake, f.awayStake, TotalStake,
      f.guaranteedProfit)
  }

  function BestHome(game: Game): Option<Quote>
  {
    BestOf(Offers(game.bookmakers), game.homeTeam, game.awayTeam, Home)
  }

  function BestAway(game: Game): Option<Quote>
  {
    BestOf(Offers(game.bookmakers), game.homeTeam, game.awayTeam, Away)
  }

  /** The body of the per-game loop (get_odds/get_odds.py:68-150). */
  function EvaluateGame(game: Game, parse: string -> Option<EasternTime>, now: real): (r: GameResult)
    ensures |game.bookmakers| < 2 ==> r.Skipped?
    ensures r.Found? <==> |game.bookmakers| >= 2 && Assess(BestHome(game), BestAway(game)).Arbitrage?
    ensures r.Crashed? <==> |game.bookmakers| >= 2 && Assess(BestHome(game), BestAway(game)).DivisionByZero?
    ensures r.Found? ==>
              r.opportunity.bestHomeOdds == BestHome(game).value.price &&
              r.opportunity.homeBookmaker == BestHome(game).value.bookmaker &&
              r.opportunity.bestAwayOdds == BestAway(game).value.price &&
              r.opportunity.awayBookmaker == BestAway(game).value.bookmaker
    ensures r.Found? ==>
              r.opportunity == Record(game, parse, now, BestHome(game).value, BestAway(game).value,
                                      Assess(BestHome(game), BestAway(game)).figures)
  {
    if |game.bookmakers| < 2 then Skipped
    else
      match Assess(BestHome(game), BestAway(game))
      case NoArbitrage => Skipped
      case DivisionByZero => Crashed
      case Arbitrage(f) => Found(Record(game, parse, now, BestHome(game).value, BestAway(game).value, f))
  }

  /** The list appended to by the loop over `games`, before sorting; a crash ends the call. */
  function Collect(games: seq<Game>, parse: string -> Option<EasternTime>, now: real): Detection
    decreases |games|
  {
    if games == [] then Completed([])
    else
      match Collect(games[..|games| - 1], parse, now)
      case ZeroDivision(i) => ZeroDivision(i)
      case Completed(found) =>
        match EvaluateGame(games[|games| - 1], parse, now)
        case Skipped => Completed(found)
        case Found(o) => Completed(found + [o])
        case Crashed => ZeroDivision(|games| - 1)
  }

  /** The result of find_arbitrage_opportunities: the collected records, sorted. */
  function Detect(games: seq<Game>, parse: string -> Option<EasternTime>, now: real): Detection
  {
    match Collect(games, parse, now)
    case ZeroDivision(i) => ZeroDivision(i)
    case Completed(found) => Completed(SortByMargin(found))
  }

  lemma {:induction false} CrashIsFinal(games: seq<Game>, i: nat, parse: string -> Option<EasternTime>, now: real)
    requires i <= |games| && Collect(games[..i], parse, now).ZeroDivision?
    ensures Collect(games, parse, now) == Collect(games[..i], parse, now)
    decreases |games|
  {
    if i < |games| {
      var n := |games|;
      assert games[..n - 1][..i] == games[..i];
      CrashIsFinal(games[..n - 1], i, parse, now);
    } else {
      assert games[..i] == games;
    }
  }

  /**
   * `idx` lists, in increasing order, the games whose evaluation reports a
   * record, and `found[k]` is the record of game `idx[k]`: every reporting
   * game appears once, and no other game appears.
   */
  ghost predicate IndexesRecords(games: seq<Game>, parse: string -> Option<EasternTime>, now: real,
                                 found: seq<Opportunity>, idx: seq<nat>)
  {
    |idx| == |found| &&
    (forall k :: 0 <= k < |idx| ==> idx[k] < |games| && EvaluateGame(games[idx[k]], parse, now) == Found(found[k])) &&
    (forall k, l :: 0 <= k < l < |idx| ==> idx[k] < idx[l]) &&
    (forall i :: 0 <= i < |games| && EvaluateGame(games[i], parse, now).Found? ==> i in idx)
  }

  /** `found` holds one record per reporting game, in the order of the games. */
  ghost predicate RecordsInGameOrder(games: seq<Game>, parse: string -> Option<EasternTime>, now: real,
                                     found: seq<Opportunity>)
  {
    exists idx :: IndexesRecords(games, parse, now, found, idx)
  }

  /**
   * find_arbitrage_opportunities with the clock read as `now` and the
   * timestamp parser as `parse`: one pass over the games, appending each
   * opportunity found, then the sort on the rounded margin.
   */
  method FindArbitrageOpportunities(games: seq<Game>, parse: string -> Option<EasternTime>, now: real)
    returns (d: Detection)
    ensures d == Detect(games, parse, now)
  {
    var opportunities: seq<Opportunity> := [];
    var i := 0;
    while i < |games|
      invariant 0 <= i <= |games|
      invariant Collect(games[..i], parse, now) == Completed(opportunities)
    {
      var game := games[i];
      assert games[..i + 1][..i] == games[..i];
      if |game.bookmakers| >= 2 {
        var bestHome, bestAway := ScanBestPrices(game.homeTeam, game.awayTeam, game.bookmakers);
        match Assess(bestHome, bestAway)
        case NoArbitrage =>
        case DivisionByZero =>
          CrashIsFinal(games, i + 1, parse, now);
          return ZeroDivision(i);
        case Arbitrage(figures) =>
          opportunities := opportunities + [Record(game, parse, now, bestHome.value, bestAway.value, figures)];
      }
      i := i + 1;
    }
    assert games[..i] == games;
    opportunities := SortByMargin(opportunities);
    d := Completed(opportunities);
  }

  /** The stake figures a record carries. */
  function FiguresOf(o: Opportunity): Figures
  {
    Figures(o.totalImpliedProbability, o.profitMarginPercent, o.homeStake, o.awayStake, o.guaranteedProfit)
  }

  /** A reported record splits the stake for equal payouts at its two best prices. */
  lemma FoundRecordPaysEqually(game: Game, parse: string -> Option<EasternTime>, now: real)
    requires EvaluateGame(game, parse, now).Found?
    ensures var o := EvaluateGame(game, parse, now).opportunity;
            o.totalStake == TotalStake && PaysEqually(o.bestHomeOdds, o.bestAwayOdds, FiguresOf(o))
  {
    ArbitragePaysEqually(BestHome(game), BestAway(game));
  }

  /** A game whose two team names are equal never gets an away price, so it is never reported. */
  lemma SameTeamNamesSkipped(game: Game, parse: string -> Option<EasternTime>, now: real)
    requires game.homeTeam == game.awayTeam
    ensures EvaluateGame(game, parse, now).Skipped?
  {
    SameNamesLeaveAwayUnpriced(Offers(game.bookmakers), game.homeTeam);
  }

  lemma {:induction false} CollectCompletesIffNoCrash(games: seq<Game>, parse: string -> Option<EasternTime>, now: real)
    ensures Collect(games, parse, now).Completed? <==>
            forall i :: 0 <= i < |games| ==> !EvaluateGame(games[i], parse, now).Crashed?
    decreases |games|
  {
    if games != [] {
      var n := |games|;
      CollectCompletesIffNoCrash(games[..n - 1], parse, now);
      assert forall i :: 0 <= i < n - 1 ==> games[i] == games[..n - 1][i];
    }
  }

  lemma {:induction false} CollectStopsAtFirstCrash(games: seq<Game>, parse: string -> Option<EasternTime>, now: real)
    requires Collect(games, parse, now).ZeroDivision?
    ensures var c := Collect(games, parse, now).gameIndex;
            c < |games| && EvaluateGame(games[c], parse, now).Crashed? &&
            forall j :: 0 <= j < c ==> !EvaluateGame(games[j], parse, now).Crashed?
    decreases |games|
  {
    var n := |games|;
    var prior := games[..n - 1];
    if Collect(prior, parse, now).ZeroDivision? {
      CollectStopsAtFirstCrash(prior, parse, now);
      var c := Collect(prior, parse, now).gameIndex;
      assert forall j :: 0 <= j <= c ==> games[j] == prior[j];
    } else {
      CollectCompletesIffNoCrash(prior, parse, now);
      assert forall j :: 0 <= j < n - 1 ==> games[j] == prior[j];
    }
  }

  lemma {:induction false} CollectRecordsComeFromGames(games: seq<Game>, parse: string -> Option<EasternTime>, now: real)
    requires Collect(games, parse, now).Completed?
    ensures var found := Collect(games, parse, now).opportunities;
            |found| <= |games| &&
            forall o :: o in found ==> exists i :: 0 <= i < |games| && EvaluateGame(games[i], parse, now) == Found(o)
    decreases |games|
  {
    if games != [] {
      var n := |games|;
      var prior := games[..n - 1];
      CollectRecordsComeFromGames(prior, parse, now);
      var found := Collect(games, parse, now).opportunities;
      forall o | o in found ensures exists i :: 0 <= i < n && EvaluateGame(games[i], parse, now) == Found(o) {
        if o !in Collect(prior, parse, now).opportunities {
          assert EvaluateGame(games[n - 1], parse, now) == Found(o);
        } else {
          var i :| 0 <= i < n - 1 && EvaluateGame(prior[i], parse, now) == Found(o);
          assert games[i] == prior[i];
        }
      }
    }
  }

  lemma {:induction false} CollectKeepsEveryRecord(games: seq<Game>, parse: string -> Option<EasternTime>, now: real)
    requires Collect(games, parse, now).Completed?
    ensures forall i :: 0 <= i < |games| && EvaluateGame(games[i], parse, now).Found? ==>
              EvaluateGame(games[i], parse, now).opportunity in Collect(games, parse, now).opportunities
    decreases |games|
  {
    if games != [] {
      var n := |games|;
      CollectKeepsEveryRecord(games[..n - 1], parse, now);
      assert forall i :: 0 <= i < n - 1 ==> games[i] == games[..n - 1][i];
    }
  }

  /** One more game keeps the index list: the last game's record, if any, goes at the end. */
  lemma IndexesRecordsSnoc(games: seq<Game>, parse: string -> Option<EasternTime>, now: real,
                           before: seq<Opportunity>, idx: seq<nat>)
    requires |games| > 0 && IndexesRecords(games[..|games| - 1], parse, now, before, idx)
    ensures var last := EvaluateGame(games[|games| - 1], parse, now);
            IndexesRecords(games, parse, now,
                           if last.Found? then before + [last.opportunity] else before,
                           if last.Found? then idx + [|games| - 1] else idx)
  {
    var n := |games|;
    forall i | 0 <= i < n - 1 ensures games[i] == games[..n - 1][i] { }
    if EvaluateGame(games[n - 1], parse, now).Found? {
      IndexesRecordsSnocFound(games, parse, now, before, idx);
    } else {
      IndexesRecordsSnocSkip(games, parse, now, before, idx);
    }
  }

  lemma IndexesRecordsSnocFound(games: seq<Game>, parse: string -> Option<EasternTime>, now: real,
                                before: seq<Opportunity>, idx: seq<nat>)
    requires |games| > 0 && IndexesRecords(games[..|games| - 1], parse, now, before, idx)
    requires forall i :: 0 <= i < |games| - 1 ==> games[i] == games[..|games| - 1][i]
    requires EvaluateGame(games[|games| - 1], parse, now).Found?
    ensures IndexesRecords(games, parse, now,
                           before + [EvaluateGame(games[|games| - 1], parse, now).opportunity],
                           idx + [|games| - 1])
  {
    var n := |games|;
    var found := before + [EvaluateGame(games[n - 1], parse, now).opportunity];
    var idx' := idx + [n - 1];
    forall k | 0 <= k < |idx| ensures idx'[k] == idx[k] && found[k] == before[k] { }
    forall i | 0 <= i < n && EvaluateGame(games[i], parse, now).Found? ensures i in idx' {
      if i < n - 1 {
        assert i in idx;
      }
    }
  }

  lemma IndexesRecordsSnocSkip(games: seq<Game>, parse: string -> Option<EasternTime>, now: real,
                               before: seq<Opportunity>, idx: seq<nat>)
    requires |games| > 0 && IndexesRecords(games[..|games| - 1], parse, now, before, idx)
    requires forall i :: 0 <= i < |games| - 1 ==> games[i] == games[..|games| - 1][i]
    requires !EvaluateGame(games[|games| - 1], parse, now).Found?
    ensures IndexesRecords(games, parse, now, before, idx)
  {
    forall i | 0 <= i < |games| && EvaluateGame(games[i], parse, now).Found? ensures i in idx {
      assert i < |games| - 1;
    }
  }

  /** A completed call over `games` completed over all but the last game, and then added the last game's record if it has one. */
  lemma CollectSnoc(games: seq<Game>, parse: string -> Option<EasternTime>, now: real)
    requires |games| > 0 && Collect(games, parse, now).Completed?
    ensures var last := EvaluateGame(games[|games| - 1], parse, now);
            var before := Collect(games[..|games| - 1], parse, now);
            before.Completed? &&
            Collect(games, parse, now).opportunities ==
              if last.Found? then before.opportunities + [last.opportunity] else before.opportunities
  {
  }

  /** The positions of the games that report a record, in increasing order. */
  ghost function FoundIndices(games: seq<Game>, parse: string -> Option<EasternTime>, now: real): seq<nat>
    decreases |games|
  {
    if games == [] then []
    else
      FoundIndices(games[..|games| - 1], parse, now) +
      (if EvaluateGame(games[|games| - 1], parse, now).Found? then [|games| - 1] else [])
  }

  lemma {:induction false} CollectInGameOrder(games: seq<Game>, parse: string -> Option<EasternTime>, now: real)
    requires Collect(games, parse, now).Completed?
    ensures IndexesRecords(games, parse, now, Collect(games, parse, now).opportunities, FoundIndices(games, parse, now))
    decreases |games|
  {
    if games != [] {
      var prior := games[..|games| - 1];
      CollectSnoc(games, parse, now);
      CollectInGameOrder(prior, parse, now);
      IndexesRecordsSnoc(games, parse, now, Collect(prior, parse, now).opportunities, FoundIndices(prior, parse, now));
    }
  }

  /**
   * The call aborts exactly when some game divides by zero, and then at the
   * first such game; otherwise it collects exactly the records of the games
   * that pass the test, one per such game, in the order of the games.
   */
  lemma CollectCharacterized(games: seq<Game>, parse: string -> Option<EasternTime>, now: real)
    ensures Collect(games, parse, now).Completed? <==>
            forall i :: 0 <= i < |games| ==> !EvaluateGame(games[i], parse, now).Crashed?
    ensures Collect(games, parse, now).ZeroDivision? ==>
            var c := Collect(games, parse, now).gameIndex;
            c < |games| && EvaluateGame(games[c], parse, now).Crashed? &&
            forall j :: 0 <= j < c ==> !EvaluateGame(games[j], parse, now).Crashed?
    ensures Collect(games, parse, now).Completed? ==>
            var found := Collect(games, parse, now).opportunities;
            |found| <= |games| &&
            (forall o :: o in found ==> exists i :: 0 <= i < |games| && EvaluateGame(games[i], parse, now) == Found(o)) &&
            (forall i :: 0 <= i < |games| && EvaluateGame(games[i], parse, now).Found? ==>
                           EvaluateGame(games[i], parse, now).opportunity in found) &&
            RecordsInGameOrder(games, parse, now, found)
  {
    CollectCompletesIffNoCrash(games, parse, now);
    if Collect(games, parse, now).ZeroDivision? {
      CollectStopsAtFirstCrash(games, parse, now);
    } else {
      CollectRecordsComeFromGames(games, parse, now);
      CollectKeepsEveryRecord(games, parse, now);
      CollectInGameOrder(games, parse, now);
      assert IndexesRecords(games, parse, now, Collect(games, parse, now).opportunities, FoundIndices(games, parse, now));
    }
  }

  /**
   * The ranked records are in non-increasing order of rounded margin, are
   * a permutation of the collected ones (one per reporting game, in game
   * order), keep the order of the games among equal margins, and each pays
   * out equally on either result.
   */
  lemma DetectRanks(games: seq<Game>, parse: string -> Option<EasternTime>, now: real)
    requires Detect(games, parse, now).Completed?
    ensures var ranked := Detect(games, parse, now).opportunities;
            var found := Collect(games, parse, now).opportunities;
            Descending(ranked) &&
            RecordsInGameOrder(games, parse, now, found) &&
            multiset(ranked) == multiset(found) &&
            (forall k :: WithKey(ranked, k) == WithKey(found, k)) &&
            |ranked| <= |games| &&
            forall o :: o in ranked ==> o.totalStake == TotalStake && PaysEqually(o.bestHomeOdds, o.bestAwayOdds, FiguresOf(o))
  {
    var found := Collect(games, parse, now).opportunities;
    SortByMarginCorrect(found);
    CollectRecordsComeFromGames(games, parse, now);
    assert |SortByMargin(found)| == |found| by {
      assert |multiset(SortByMargin(found))| == |multiset(found)|;
    }
    CollectedRecordsPayEqually(games, parse, now);
    CollectInGameOrder(games, parse, now);
    assert IndexesRecords(games, parse, now, found, FoundIndices(games, parse, now));
  }

  lemma CollectedRecordsPayEqually(games: seq<Game>, parse: string -> Option<EasternTime>, now: real)
    requires Collect(games, parse, now).Completed?
    ensures forall o :: o in multiset(Collect(games, parse, now).opportunities) ==>
              o.totalStake == TotalStake && PaysEqually(o.bestHomeOdds, o.bestAwayOdds, FiguresOf(o))
  {
    var found := Collect(games, parse, now).opportunities;
    CollectRecordsComeFromGames(games, parse, now);
    forall o: Opportunity | o in multiset(found)
      ensures o.totalStake == TotalStake && PaysEqually(o.bestHomeOdds, o.bestAwayOdds, FiguresOf(o))
    {
      assert o in found;
      var i :| 0 <= i < |games| && EvaluateGame(games[i], parse, now) == Found(o);
      FoundRecordPaysEqually(games[i], parse, now);
    }
  }

  /**
   * When every quoted price is at least zero, as decimal odds and the 0 of a
   * missing price are, the call never divides by zero and every record
   * reported has positive stakes and a positive guaranteed profit.
   */
  lemma NonNegativePricesAlwaysProfit(games: seq<Game>, parse: string -> Option<EasternTime>, now: real)
    requires forall g :: g in games ==> NonNegativePrices(g.bookmakers)
    ensures Detect(games, parse, now).Completed?
    ensures forall o :: o in Detect(games, parse, now).opportunities ==>
              0.0 < o.homeStake && 0.0 < o.awayStake && 0.0 < o.guaranteedProfit
  {
    forall i | 0 <= i < |games|
      ensures !EvaluateGame(games[i], parse, now).Crashed?
      ensures EvaluateGame(games[i], parse, now).Found? ==>
                var o := EvaluateGame(games[i], parse, now).opportunity;
                0.0 < o.homeStake && 0.0 < o.awayStake && 0.0 < o.guaranteedProfit
    {
      NonNegativeGameProfits(games[i], parse, now);
    }
    CollectCompletesIffNoCrash(games, parse, now);
    CollectRecordsComeFromGames(games, parse, now);
    var found := Collect(games, parse, now).opportunities;
    SortByMarginCorrect(found);
    forall o | o in SortByMargin(found) ensures 0.0 < o.homeStake && 0.0 < o.awayStake && 0.0 < o.guaranteedProfit {
      assert o in multiset(found);
      var i :| 0 <= i < |games| && EvaluateGame(games[i], parse, now) == Found(o);
    }
  }

  lemma NonNegativeGameProfits(game: Game, parse: string -> Option<EasternTime>, now: real)
    requires NonNegativePrices(game.bookmakers)
    ensures !EvaluateGame(game, parse, now).Crashed?
    ensures EvaluateGame(game, parse, now).Found? ==>
              var o := EvaluateGame(game, parse, now).opportunity;
              0.0 < o.homeStake && 0.0 < o.awayStake && 0.0 < o.guaranteedProfit
  {
    var offers := Offers(game.bookmakers);
    OffersKeepNonNegativePrices(game.bookmakers);
    BestOfIsFirstMaximum(offers, game.homeTeam, game.awayTeam, Home);
    BestOfIsFirstMaximum(offers, game.homeTeam, game.awayTeam, Away);
    var h, a := BestHome(game), BestAway(game);
    if Priced(h) && Priced(a) {
      assert h.value.price > 0.0;
      assert a.value.price > 0.0;
      PositivePricesProfit(h, a);
    }
  }
}
