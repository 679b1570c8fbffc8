/**
  Crack-time estimates (`estimateCrackTimes` and its `formatTime` in index.ts).

  `Math.pow(2, x)` is passed in as a function; the contracts rely only on the laws
  of `IsPow2`. The formatter first classifies a duration, then renders the French
  phrase, so that the classification can be stated apart from the wording.
 */
module CrackTimes {
  import opened Results
  import opened Text
  import opened Entropy

  /** What the model relies on about `x => Math.pow(2, x)`. */
  ghost predicate IsPow2(pow2: real -> real) {
    && pow2(0.0) == 1.0
    && forall x, y :: 0.0 <= x <= y ==> pow2(x) <= pow2(y)
  }

  const FastRate: real := 10000000000.0
  const MediumRate: real := 100000000.0
  const OnlineRate: real := 10.0

  datatype TimeUnit = Seconds | Minutes | Hours | Days | Months | Years

  datatype Duration = UnderOneSecond | FewSeconds | Amount(count: int, unit: TimeUnit) | ThousandsOfYears

  /** Seconds per unit: this formatter's month is 30 days and its year 12 such months. */
  function UnitLength(u: TimeUnit): real {
    match u
    case Seconds => 1.0
    case Minutes => 60.0
    case Hours => 3600.0
    case Days => 86400.0
    case Months => 2592000.0
    case Years => 31104000.0
  }

  /** The shortest duration the formatter renders in unit `u`. */
  function UnitFloor(u: TimeUnit): real {
    match u
    case Seconds => 10.0
    case Minutes => 60.0
    case Hours => 3600.0
    case Days => 86400.0
    case Months => 2592000.0
    case Years => 62208000.0
  }

  /** Durations from here on are rendered in a larger unit. */
  function UnitCeiling(u: TimeUnit): real {
    match u
    case Seconds => 60.0
    case Minutes => 3600.0
    case Hours => 86400.0
    case Days => 2592000.0
    case Months => 62208000.0
    case Years => 31104000000.0
  }

  function UnitWord(u: TimeUnit): string {
    match u
    case Seconds => "secondes"
    case Minutes => "minutes"
    case Hours => "heures"
    case Days => "jours"
    case Months => "mois"
    case Years => "ans"
  }

  /**
    The branch `formatTime` takes: under a second, a few seconds, a rounded amount
    in the largest unit the duration reaches, or thousands of years.
   */
  function Classify(seconds: real): (d: Duration)
    ensures d == UnderOneSecond <==> seconds < 1.0
    ensures d == FewSeconds <==> 1.0 <= seconds < 10.0
    ensures d == ThousandsOfYears <==> seconds >= UnitCeiling(Years)
    ensures d.Amount? ==>
              && UnitFloor(d.unit) <= seconds < UnitCeiling(d.unit)
              && d.count == Round(seconds / UnitLength(d.unit))
              && 1 <= d.count <= 1000
  {
    if seconds < 1.0 then UnderOneSecond
    else if seconds < 10.0 then FewSeconds
    else if seconds < 60.0 then Amount(Round(seconds), Seconds)
    else
      var minutes := seconds / 60.0;
      if minutes < 60.0 then Amount(Round(minutes), Minutes)
      else
        var hours := minutes / 60.0;
        if hours < 24.0 then Amount(Round(hours), Hours)
        else
          var days := hours / 24.0;
          if days < 30.0 then Amount(Round(days), Days)
          else
            var months := days / 30.0;
            if months < 24.0 then Amount(Round(months), Months)
            else
              var years := months / 12.0;
              if years < 1000.0 then Amount(Round(years), Years)
              else ThousandsOfYears
  }

  /** Position of a duration class on the time line. */
  function Level(d: Duration): nat {
    match d
    case UnderOneSecond => 0
    case FewSeconds => 1
    case Amount(_, u) =>
      (match u
       case Seconds => 2
       case Minutes => 3
       case Hours => 4
       case Days => 5
       case Months => 6
       case Years => 7)
    case ThousandsOfYears => 8
  }

  /** A longer duration is never rendered in a smaller class. */
  lemma ClassifyMonotone(s1: real, s2: real)
    requires s1 <= s2
    ensures Level(Classify(s1)) <= Level(Classify(s2))
  {
  }

  function Render(d: Duration): string {
    match d
    case UnderOneSecond => "< 1 seconde"
    case FewSeconds => "quelques secondes"
    case Amount(n, u) => NatToString(if n < 0 then 0 else n) + " " + UnitWord(u)
    case ThousandsOfYears => "plusieurs milliers d'années"
  }

  /** `formatTime` of index.ts. */
  function FormatTime(seconds: real): string {
    Render(Classify(seconds))
  }

  datatype CrackTime = CrackTime(guessesPerSecond: real, timeSeconds: real, formattedTime: string)

  datatype CrackTimes = CrackTimes(offlineFast: CrackTime, offlineMedium: CrackTime, onlineLimited: CrackTime)

  function Scenario(guesses: real, rate: real): CrackTime
    requires rate > 0.0
  {
    CrackTime(rate, guesses / rate, FormatTime(guesses / rate))
  }

  /**
    `estimateCrackTimes`: the mean number of guesses `2^max(e - 1, 0)` divided by
    each of the three attack rates, with the formatted duration.
   */
  function EstimateCrackTimes(effectiveEntropyBits: real, pow2: real -> real): (t: CrackTimes)
    requires IsPow2(pow2)
    ensures t.offlineFast.guessesPerSecond == FastRate
    ensures t.offlineMedium.guessesPerSecond == MediumRate
    ensures t.onlineLimited.guessesPerSecond == OnlineRate
    ensures var guesses := pow2(RealMax(effectiveEntropyBits - 1.0, 0.0));
            && t.offlineFast.timeSeconds * FastRate == guesses
            && t.offlineMedium.timeSeconds * MediumRate == guesses
            && t.onlineLimited.timeSeconds * OnlineRate == guesses
    ensures 0.0 < t.offlineFast.timeSeconds <= t.offlineMedium.timeSeconds <= t.onlineLimited.timeSeconds
    ensures t.onlineLimited.timeSeconds >= 0.1
    ensures t.offlineFast.formattedTime == FormatTime(t.offlineFast.timeSeconds)
    ensures t.offlineMedium.formattedTime == FormatTime(t.offlineMedium.timeSeconds)
    ensures t.onlineLimited.formattedTime == FormatTime(t.onlineLimited.timeSeconds)
  {
    var guesses := pow2(RealMax(effectiveEntropyBits - 1.0, 0.0));
    CrackTimes(Scenario(guesses, FastRate), Scenario(guesses, MediumRate), Scenario(guesses, OnlineRate))
  }

  /** At one bit or less a single guess is expected, and every scenario reads as under a second. */
  lemma LowEntropyIsInstant(effectiveEntropyBits: real, pow2: real -> real)
    requires IsPow2(pow2)
    requires effectiveEntropyBits <= 1.0
    ensures var t := EstimateCrackTimes(effectiveEntropyBits, pow2);
            && t.offlineFast.formattedTime == "< 1 seconde"
            && t.offlineMedium.formattedTime == "< 1 seconde"
            && t.onlineLimited.formattedTime == "< 1 seconde"
  {
  }
}
