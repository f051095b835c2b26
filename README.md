# SangOdds arbitrage detector, modelled in Dafny

SangOdds fetches decimal moneyline odds for several sports. For each game it
looks for a two-way arbitrage: the best home price and the best away price,
possibly from different bookmakers, imply a combined probability below 1.
This project models the detector `GetOdds.find_arbitrage_opportunities` and
the helpers it calls. It proves what the detector computes:

- the best-price scan: a running maximum in which the first bookmaker wins ties;
- the arbitrage test;
- the equal-payout stake split for a total stake of 100;
- the stable ranking by rounded profit margin;
- the liveness window and the timestamp fallback of the helpers.

Prices, probabilities, stakes and instants are exact `real`s.

Files, one module each:

- `wrappers.dfy`: `Option`.
- `helpers.dfy`: `Helpers`, for `helpers/helpers.py`. The clock read becomes the
  parameter `now`. The ISO-8601 parser and US/Eastern formatter become the
  parameter `parse`.
- `odds_data.dfy`: `OddsData`. Typed games, bookmakers, markets and outcomes;
  the output record; and the flattening of every `"h2h"` outcome into `Offer`s,
  in the order the nested loops visit them.
- `best_price.dfy`: `BestPrice`. The specification fold `BestOf`, the
  imperative scan (`ScanBestPrices`, `ScanMarkets`, `ScanOutcomes`: one method
  per nested loop), and what the scan finds.
- `arbitrage.dfy`: `Arbitrage`. The truthiness guard, the implied
  probabilities, the test `total < 1` and the stake split.
- `ranking.dfy`: `Ranking`. Python's `round(x, 2)` on exact values (half to
  even) and the stable descending sort on that key.
- `get_odds.dfy`: `GetOdds`. The per-game body, the loop over games
  (`FindArbitrageOpportunities`) and batch-level lemmas.
- `scenarios.dfy`: `Scenarios`. Worked games.

Behaviour the model makes explicit:

- The guard `if best_home_odds and best_away_odds` rejects only a missing or
  zero price. A negative price passes it. With prices 2.0 and -2.0 the implied
  probabilities cancel. The stake division then raises `ZeroDivisionError`,
  which aborts the whole call. The model returns `ZeroDivision(gameIndex)`.
  With prices 2.0 and -1.0 an "opportunity" with a guaranteed profit of -300 is
  reported. `NonNegativePricesAlwaysProfit` proves that none of this happens
  when every price is at least 0.
- Because of the `elif`, a game whose home and away names are equal never gets
  an away price and is never reported.
- The sort key is the margin rounded to cents. Two records whose margins round
  to the same value keep their game order, even if their exact margins differ.
- In the worked game with best prices 2.10 and 2.05, the margin is
  3100/861 ≈ 3.6005, stored as 3.6.

## Model

| member | source | states |
|---|---|---|
| `Helpers.DecimalToProbability` | helpers/helpers.py:8-10 | the result times the price is 1, i.e. it is `1/price`; it is positive exactly for a positive price; it lies strictly between 0 and 1 for any price above 1 |
| `Helpers.ConvertToEst` | helpers/helpers.py:13-36 | a timestamp the parser rejects gives no instant and the original text unchanged; an accepted one gives the parsed instant and its display text |
| `Helpers.IsGameLive` | helpers/helpers.py:38-61 | live exactly when the timestamp parses and `kickoff <= now <= kickoff + maxHours * 3600`, both ends inclusive; never live before kickoff, after the window, or on a rejected timestamp |
| `Helpers.DefaultWindowExamples` | helpers/helpers.py:39-59 | with the default of 4 hours, a kickoff 2 hours ago is live, and kickoffs 5 hours ago or in the future are not |
| `OddsData.NonMoneylineMarketIgnored` | get_odds/get_odds.py:90-93 | a market whose key is not "h2h" contributes no offers, wherever it stands among a bookmaker's markets |
| `BestPrice.BestOfIsFirstMaximum` | get_odds/get_odds.py:84-106 | a side has no best price exactly when no outcome is tracked for it; otherwise the best price is the maximum over all tracked outcomes of all bookmakers, and its bookmaker is the first one, in visiting order, to quote it (strict `>`, so the first bookmaker wins ties) |
| `BestPrice.UnmatchedOfferIgnored` | get_odds/get_odds.py:99-106 | an outcome naming neither team changes neither best price nor bookmaker, wherever it appears |
| `BestPrice.SameNamesLeaveAwayUnpriced` | get_odds/get_odds.py:99-106 | when the home and away names are equal, the `elif` never tracks an away price |
| `BestPrice.ScanBestPrices` | get_odds/get_odds.py:84-106 | the nested loops leave in the best home and away variables exactly the specification fold over all "h2h" offers |
| `BestPrice.ScanMarkets` | get_odds/get_odds.py:90-93 | the loop over one bookmaker's markets continues the fold over exactly that bookmaker's "h2h" offers |
| `BestPrice.ScanOutcomes` | get_odds/get_odds.py:93-106 | the loop over one market's outcomes continues the fold over exactly those outcomes, in order |
| `Arbitrage.Assess` | get_odds/get_odds.py:108-126 | there is an opportunity or a division by zero exactly when both best prices are present and non-zero and `1/home + 1/away < 1`; the division by zero happens exactly when the two prices are opposite; the total recorded is `1/home + 1/away` |
| `Arbitrage.SplitAlgebra` | get_odds/get_odds.py:119-125 | for non-zero prices whose probabilities have a non-zero sum `t`, the stakes add up to 100 and each stake times its price is `100/t` |
| `Arbitrage.ArbitragePaysEqually` | get_odds/get_odds.py:116-126 | for a detected opportunity: stakes add up to 100; both payouts equal `100/total`; the guaranteed profit is `100/total - 100` and equals margin divided by total; the margin is positive; the profit is positive exactly when the total is |
| `Arbitrage.PositivePricesProfit` | get_odds/get_odds.py:109-126 | with positive best prices there is no division by zero, and an opportunity has positive stakes and a positive guaranteed profit |
| `Arbitrage.NegativePriceExamples` | get_odds/get_odds.py:109-126 | prices 2.0 and -2.0 pass the guard and divide by zero; 2.0 and -1.0 pass it and report a guaranteed profit of -300 |
| `Ranking.RoundHalfEven` | get_odds/get_odds.py:143 | the result is within 1/2 of the input, and it is even whenever the input lies exactly halfway |
| `Ranking.RoundCents` | get_odds/get_odds.py:143 | the result is a whole number of hundredths within 0.005 of the input, and on an exact tie that number of hundredths is even |
| `Ranking.RoundCentsMonotone` | get_odds/get_odds.py:143 | rounding to cents never reverses the order of two values |
| `Ranking.SortByMarginCorrect` | get_odds/get_odds.py:153 | the sorted list is non-increasing in rounded margin, is a permutation of the input, and, for every key, lists the records with that key in input order (stability with `reverse=True`) |
| `Ranking.ExactMarginsNearlyDescending` | get_odds/get_odds.py:143-153 | in the ranked list, a record with a smaller exact margin precedes a larger one only when both round to the same cents |
| `GetOdds.SportName` | get_odds/get_odds.py:130 | the display name is `SPORT_NAMES[key]` when the key is present and the key itself otherwise |
| `GetOdds.Record` | get_odds/get_odds.py:128-150 | the record's sport name comes from the lookup; the label is `away + " @ " + home`; status is "LIVE" exactly when `is_live`, else "UPCOMING"; `is_live` uses the default 4-hour window; the Eastern time text is the fallback-aware conversion |
| `GetOdds.EvaluateGame` | get_odds/get_odds.py:67-150 | a game with fewer than 2 bookmakers is skipped whatever its prices; a record is emitted exactly when the test finds arbitrage, and a crash happens exactly when it divides by zero; the record emitted is the `Record` of that game with its best prices, their bookmakers and `Assess`'s stake figures, so its sport name, label, teams, times and LIVE/UPCOMING status are those `Record` states |
| `GetOdds.CrashIsFinal` | get_odds/get_odds.py:120 | once a game has divided by zero, the call's outcome is that error, whatever games follow |
| `GetOdds.FindArbitrageOpportunities` | get_odds/get_odds.py:55-155 | the loop over games, appending each record and stopping at a division by zero, then the sort, computes exactly the specification `Detect` |
| `GetOdds.CollectCharacterized` | get_odds/get_odds.py:65-150 | the call fails exactly when some game divides by zero, and reports the first such game; otherwise there is a strictly increasing list of game positions that holds every game emitting a record and no other, and the k-th collected record is the record of the k-th game in it: one record per reporting game, in game order |
| `GetOdds.CollectInGameOrder` | get_odds/get_odds.py:65-150 | a completed call's records are, in order, those of the reporting games, indexed by the increasing positions of those games |
| `GetOdds.FoundRecordPaysEqually` | get_odds/get_odds.py:118-126 | every emitted record has a total stake of 100 and the equal-payout split at its own best prices |
| `GetOdds.DetectRanks` | get_odds/get_odds.py:65-155 | the returned list is non-increasing in rounded margin; it is a permutation of the collected records, which hold one record per reporting game in game order; it keeps game order among equal keys; and every record pays out equally |
| `GetOdds.SameTeamNamesSkipped` | get_odds/get_odds.py:99-109 | a game whose two team names are equal is never reported |
| `GetOdds.NonNegativePricesAlwaysProfit` | get_odds/get_odds.py:108-153 | when every quoted price is at least 0 the call never fails, and every reported record has positive stakes and a positive guaranteed profit |
| `Scenarios.SplitPricesScenario` | get_odds/get_odds.py:89-143 | home 2.10 at X (tied by Y, X kept), away 2.05 at Y, with a draw outcome and a spreads market ignored: an opportunity with total 830/861 and stored margin 3.6 |
| `Scenarios.NoArbitrageScenario` | get_odds/get_odds.py:109-115 | best prices 1.80 and 2.00 imply more than 1 together, so no opportunity |

## Left out

- `GetOdds.get_games` (get_odds/get_odds.py:17-52): HTTP requests to the odds provider; network I/O.
- `GetOdds.display_arbitrage_opportunities` (get_odds/get_odds.py:157-195) and main.py: console output and wiring only.
- ISO-8601 parsing, the US/Eastern conversion and `strftime` formatting (helpers/helpers.py:20-33). These are datetime/pytz calls. The model takes their combined result as the parameter `parse`. A difference of two timezone-aware datetimes does not depend on the zone, so instants are UTC seconds.
- The wall-clock read (helpers/helpers.py:55) is the parameter `now`. The source reads the clock again for every game, through `is_game_live` at get_odds/get_odds.py:75. The model judges all games of one call against the same `now`, so it does not capture the clock moving on between games, or a game changing between live and upcoming during a call.
- The `print` on a conversion failure, and exceptions other than a failed parse inside `is_game_live`.
- IEEE floating point: all arithmetic is on exact reals, so float rounding in `1/price`, the sum and the stakes is not modelled.
- Display rounding of the record fields (get_odds/get_odds.py:138-149): records keep full precision. Only the rounding of the margin used as sort key is modelled, as round-half-even to cents on the exact value.
- The internals of Python's list sort: the sort is specified by its result, with insertion sort as the reference.
- Defaults of `.get` on the loosely typed JSON (a missing team is "Unknown", a missing price 0, a missing name "", a missing title "Unknown"). These are assumed applied when the typed `Game` is built. Non-numeric prices and other malformed JSON are not represented.
- Helpers.DecimalToProbability: the zero price, which raises ZeroDivisionError in the source, is excluded by the precondition. Its only caller has already rejected zero prices.
