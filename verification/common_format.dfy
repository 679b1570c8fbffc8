/**
  `formatTime` of common.ts: the duration in the largest calendar unit it
  reaches, rounded, with an "(estimation)" tag. Its month is 2629800 s (a
  twelfth of a Julian year) and its year 31557600 s, unlike the formatter of
  index.ts. Non-finite numbers do not exist among reals and are not modelled.

  As written, the plural `s` is appended to every unit word, `mois` included,
  which yields `moiss`; `FormatTime` models that text, and `FormatTimeCorrected`
  the French plural the messages evidently intend.
 */
module CommonFormat {
  import opened Text
  import opened Entropy

  datatype TimeUnit = TimeUnit(word: string, length: real)

  /** The unit table, shortest first; the search runs from the last entry down. */
  const Units: seq<TimeUnit> := [
    TimeUnit("seconde", 1.0),
    TimeUnit("minute", 60.0),
    TimeUnit("heure", 3600.0),
    TimeUnit("jour", 86400.0),
    TimeUnit("mois", 2629800.0),
    TimeUnit("an", 31557600.0)
  ]

  /** Index of the year in `Units`. */
  const YearIndex: nat := 5

  const Tag: string := " (estimation)"

  /**
    The search loop: from index `i` down, the first unit no longer than the
    duration, or -1 when none is.
   */
  function FindUnit(seconds: real, i: int): (k: int)
    requires -1 <= i < |Units|
    ensures -1 <= k <= i
    ensures k >= 0 ==> Units[k].length <= seconds
    ensures forall j :: k < j <= i && j >= 0 ==> seconds < Units[j].length
    decreases i + 1
  {
    if i < 0 then -1
    else if seconds >= Units[i].length then i
    else FindUnit(seconds, i - 1)
  }

  /** How `formatTime` reads a duration: which of its four returns it takes. */
  datatype Reading = UnderOneSecond | Counted(amount: int, unit: nat) | Millennia | FewSeconds

  /** The unit of a reading exists and its amount is positive. */
  predicate Renderable(d: Reading) {
    d.Counted? ==> d.unit < |Units| && d.amount >= 1
  }

  /** A duration of at least one unit rounds to at least one. */
  lemma AtLeastOne(seconds: real, length: real)
    requires 0.0 < length <= seconds
    ensures Round(seconds / length) >= 1
  {
    assert seconds / length >= 1.0 by {
      assert seconds / length * length == seconds;
    }
  }

  /**
    The branch `formatTime` takes. The last-resort "quelques secondes" return
    is never taken: from one second on, the one-second unit always matches.
   */
  function Classify(seconds: real): (d: Reading)
    ensures Renderable(d)
    ensures d == UnderOneSecond <==> seconds < 1.0
    ensures !d.FewSeconds?
    ensures d == Millennia <==> seconds >= Units[YearIndex].length && Round(seconds / Units[YearIndex].length) > 5000
    ensures d.Counted? ==>
              && Units[d.unit].length <= seconds
              && (forall j :: d.unit < j < |Units| ==> seconds < Units[j].length)
              && d.amount == Round(seconds / Units[d.unit].length)
              && !(d.unit == YearIndex && d.amount > 5000)
  {
    if seconds < 1.0 then UnderOneSecond
    else
      var k := FindUnit(seconds, |Units| - 1);
      if k < 0 then FewSeconds
      else
        AtLeastOne(seconds, Units[k].length);
        var amount := Round(seconds / Units[k].length);
        if amount > 5000 && Units[k].word == "an" then Millennia
        else Counted(amount, k)
  }

  /** The text of a reading, with the plural `s` appended to any unit word, as written. */
  function Render(d: Reading): string
    requires Renderable(d)
  {
    match d
    case UnderOneSecond => "< 1 seconde" + Tag
    case Counted(n, k) => NatToString(n) + " " + Units[k].word + (if n > 1 then "s" else "") + Tag
    case Millennia => "plusieurs milliers d'années" + Tag
    case FewSeconds => "quelques secondes" + Tag
  }

  /** `formatTime` of common.ts, as written. */
  function FormatTime(seconds: real): (r: string)
    ensures seconds < 1.0 ==> r == "< 1 seconde (estimation)"
    ensures seconds >= Units[YearIndex].length && Round(seconds / Units[YearIndex].length) > 5000
            ==> r == "plusieurs milliers d'années (estimation)"
    ensures r != "quelques secondes (estimation)"
  {
    var d := Classify(seconds);
    var r := Render(d);
    assert d.Counted? ==> r[0] == NatToString(d.amount)[0];
    r
  }

  /**
    From one second on, `formatTime` names the largest unit the duration
    reaches, the rounded amount, and appends `s` exactly when the amount
    exceeds one.
   */
  lemma FormatTimeLargestUnit(seconds: real, k: nat)
    requires k < |Units| && Units[k].length <= seconds
    requires forall j :: k < j < |Units| ==> seconds < Units[j].length
    requires !(k == YearIndex && Round(seconds / Units[k].length) > 5000)
    ensures var n := Round(seconds / Units[k].length);
            && n >= 1
            && FormatTime(seconds) == NatToString(n) + " " + Units[k].word + (if n > 1 then "s" else "") + " (estimation)"
  {
    var d := Classify(seconds);
    assert d.Counted? && d.unit == k;
  }

  /** Every text `formatTime` returns ends in "(estimation)". */
  lemma FormatTimeTagged(seconds: real)
    ensures var r := FormatTime(seconds);
            |r| >= 12 && r[|r| - 12..] == "(estimation)"
  {
    var d := Classify(seconds);
    var r := Render(d);
    assert r == r[..|r| - |Tag|] + Tag;
  }

  // ---------------------------------------------------------------------------
  // The plural of `mois`.

  /** The French plural of each unit word: `mois` is invariable. */
  function PluralWord(k: nat): string
    requires k < |Units|
  {
    ["secondes", "minutes", "heures", "jours", "mois", "ans"][k]
  }

  /** Two months, as written, read "2 moiss": the appended `s` doubles the final letter of `mois`. */
  lemma MonthPluralAsWritten()
    ensures FormatTime(5259600.0) == "2 moiss (estimation)"
    ensures FormatTime(5259600.0) != "2 " + PluralWord(4) + " (estimation)"
  {
    var d := Classify(5259600.0);
    assert 5259600.0 / 2629800.0 == 2.0;
    assert d == Counted(2, 4);
    assert NatToString(2) == "2";
  }

  /** A unit word in the plural: `s` is added unless the word already ends in `s`. */
  function Pluralize(word: string): string {
    if |word| > 0 && word[|word| - 1] == 's' then word else word + "s"
  }

  function RenderCorrected(d: Reading): string
    requires Renderable(d)
  {
    match d
    case UnderOneSecond => "< 1 seconde" + Tag
    case Counted(n, k) => NatToString(n) + " " + (if n > 1 then Pluralize(Units[k].word) else Units[k].word) + Tag
    case Millennia => "plusieurs milliers d'années" + Tag
    case FewSeconds => "quelques secondes" + Tag
  }

  /** `formatTime` with the unit word in its French plural. */
  function FormatTimeCorrected(seconds: real): (r: string)
    ensures seconds < 1.0 ==> r == "< 1 seconde (estimation)"
    ensures seconds >= Units[YearIndex].length && Round(seconds / Units[YearIndex].length) > 5000
            ==> r == "plusieurs milliers d'années (estimation)"
  {
    RenderCorrected(Classify(seconds))
  }

  /** Adding `s` unless the word ends in `s` gives the French plural of every unit word. */
  lemma PluralizeMatchesFrench()
    ensures forall k :: 0 <= k < |Units| ==> Pluralize(Units[k].word) == PluralWord(k)
  {
    forall k | 0 <= k < |Units|
      ensures Pluralize(Units[k].word) == PluralWord(k)
    {
      if k < 3 {} else {}
    }
  }

  /**
    Corrected, from one second on the text names the largest unit the duration
    reaches and the rounded amount, in the singular for one and in the French
    plural above one; nothing else changes from the text as written.
   */
  lemma CorrectedLargestUnit(seconds: real, k: nat)
    requires k < |Units| && Units[k].length <= seconds
    requires forall j :: k < j < |Units| ==> seconds < Units[j].length
    requires !(k == YearIndex && Round(seconds / Units[k].length) > 5000)
    ensures var n := Round(seconds / Units[k].length);
            && n >= 1
            && FormatTimeCorrected(seconds)
               == NatToString(n) + " " + (if n > 1 then PluralWord(k) else Units[k].word) + " (estimation)"
            && (k != 4 || n == 1 ==> FormatTimeCorrected(seconds) == FormatTime(seconds))
  {
    PluralizeMatchesFrench();
    var d := Classify(seconds);
    assert d.Counted? && d.unit == k;
  }
}
