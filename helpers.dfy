/**
 * Time and probability utilities (helpers/helpers.py).
 *
 * The source reads the wall clock inside is_game_live; here the current
 * instant is the parameter `now`. Parsing an ISO-8601 timestamp and
 * formatting it in US/Eastern is done by datetime/pytz in the source; here
 * that parser is the parameter `parse`, which yields None for text it
 * rejects. Instants are seconds on the UTC time line, as exact reals.
 */
module Helpers {
  import opened Wrappers

  const SecondsPerHour: real := 3600.0

  /** Default of is_game_live's max_game_duration_hours. */
  const DefaultMaxGameDurationHours: real := 4.0

  /** What the external parser makes of a timestamp it accepts. */
  datatype EasternTime = EasternTime(instant: real, display: string)

  /** The pair returned by convert_to_est: the converted instant, or None, and the text to show. */
  datatype Converted = Converted(eastern: Option<real>, display: string)

  /** Implied probability of decimal odds. A zero price divides by zero in the source. */
  function DecimalToProbability(price: real): (p: real)
    requires price != 0.0
    ensures p * price == 1.0
    ensures p > 0.0 <==> price > 0.0
    ensures price > 1.0 ==> 0.0 < p < 1.0
  {
    1.0 / price
  }

  /** convert_to_est: on a timestamp the parser rejects, no instant and the original text unchanged. */
  function ConvertToEst(utcText: string, parse: string -> Option<EasternTime>): (c: Converted)
    ensures c.eastern.None? <==> parse(utcText).None?
    ensures c.eastern.None? ==> c.display == utcText
    ensures c.eastern.Some? ==>
              c.eastern.value == parse(utcText).value.instant && c.display == parse(utcText).value.display
  {
    match parse(utcText)
    case None => Converted(None, utcText)
    case Some(t) => Converted(Some(t.instant), t.display)
  }

  /**
   * is_game_live: live exactly when kickoff is not after `now` and `now` is
   * at most maxGameDurationHours after kickoff (both ends included);
   * a timestamp that does not parse is never live.
   */
  function IsGameLive(commenceText: string, parse: string -> Option<EasternTime>, now: real,
                      maxGameDurationHours: real): (live: bool)
    ensures live <==> parse(commenceText).Some? &&
                      parse(commenceText).value.instant <= now &&
                      now <= parse(commenceText).value.instant + maxGameDurationHours * SecondsPerHour
  {
    var converted := ConvertToEst(commenceText, parse);
    if converted.eastern.None? then false
    else
      var hoursElapsed := (now - converted.eastern.value) / SecondsPerHour;
      0.0 <= hoursElapsed <= maxGameDurationHours
  }

  /** With the default duration, a kickoff two hours ago is live and one five hours ago is not. */
  lemma DefaultWindowExamples(commenceText: string, parse: string -> Option<EasternTime>, kickoff: EasternTime)
    requires parse(commenceText) == Some(kickoff)
    ensures IsGameLive(commenceText, parse, kickoff.instant + 2.0 * SecondsPerHour, DefaultMaxGameDurationHours)
    ensures !IsGameLive(commenceText, parse, kickoff.instant + 5.0 * SecondsPerHour, DefaultMaxGameDurationHours)
    ensures !IsGameLive(commenceText, parse, kickoff.instant - 1.0, DefaultMaxGameDurationHours)
  {
  }
}
