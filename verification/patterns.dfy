/**
  The pattern detector of the analyzer (`detectPatterns` in index.ts).

  Each of the six regular-expression tests becomes an explicit predicate on the
  password. The detector runs them in a fixed order and appends one finding, with
  its fixed penalty, for each test that fires.
 */
module Patterns {
  import opened Text

  datatype PatternKind = Repetition | RepeatedPattern | Sequence | AlphaSequence | CommonWord | Date

  /** The `type` string the source attaches to a finding. */
  function KindName(k: PatternKind): string {
    match k
    case Repetition => "repetition"
    case RepeatedPattern => "repeatedPattern"
    case Sequence => "sequence"
    case AlphaSequence => "alphaSequence"
    case CommonWord => "commonWord"
    case Date => "date"
  }

  function Message(k: PatternKind): string {
    match k
    case Repetition => "Répétitions longues détectées"
    case RepeatedPattern => "Motif répété identifié"
    case Sequence => "Suite numérique simple"
    case AlphaSequence => "Suite alphabétique"
    case CommonWord => "Mot courant ou variante leet détecté"
    case Date => "Date probable détectée"
  }

  function Penalty(k: PatternKind): int {
    match k
    case Repetition => 10
    case RepeatedPattern => 8
    case Sequence => 12
    case AlphaSequence => 10
    case CommonWord => 25
    case Date => 8
  }

  /** Where a kind comes in the detector's order of tests. */
  function Position(k: PatternKind): nat {
    match k
    case Repetition => 0
    case RepeatedPattern => 1
    case Sequence => 2
    case AlphaSequence => 3
    case CommonWord => 4
    case Date => 5
  }

  /** The sum of all six penalties: the most a password can be charged. */
  const MaxPenalty: int := 73

  datatype DetectedPattern = DetectedPattern(kind: PatternKind, message: string, penaltyBits: int)

  function Finding(k: PatternKind): DetectedPattern {
    DetectedPattern(k, Message(k), Penalty(k))
  }

  // ---------------------------------------------------------------------------
  // The six tests.

  /** `/^(.)\1{3,}/`: the password opens with four copies of one character. */
  predicate StartsWithRun(p: string) {
    && |p| >= 4
    && !IsLineTerminator(p[0])
    && p[1] == p[0] && p[2] == p[0] && p[3] == p[0]
  }

  /** A block of `k >= 2` characters at `i`, followed by two more copies of itself. */
  predicate BlockRepeatedAt(p: string, i: int, k: int) {
    && 0 <= i && 2 <= k && i + 3 * k <= |p|
    && (forall t :: i <= t < i + k ==> !IsLineTerminator(p[t]))
    && p[i + k..i + 2 * k] == p[i..i + k]
    && p[i + 2 * k..i + 3 * k] == p[i..i + k]
  }

  /** `/(.{2,})\1{2,}/`: some block of two or more characters occurs three times back to back. */
  predicate HasRepeatedBlock(p: string) {
    exists i, k | 0 <= i <= |p| && 2 <= k <= |p| :: BlockRepeatedAt(p, i, k)
  }

  const NumericRuns: seq<string> := [
    "0123", "1234", "2345", "3456", "4567", "5678", "6789",
    "9876", "8765", "7654", "6543", "5432", "4321", "3210"
  ]

  const AlphaRuns: seq<string> := ["abcd", "bcde", "cdef", "defg", "gfed", "fedc", "edcb", "zyx", "cba"]

  const CommonWords: seq<string> := [
    "password", "motdepasse", "qwerty", "azerty", "welcome", "admin", "letmein", "football", "monkey"
  ]

  predicate ContainsAny(s: string, words: seq<string>) {
    exists j | 0 <= j < |words| :: Contains(s, words[j])
  }

  /** One of the fourteen four-digit runs occurs. */
  predicate HasNumericRun(p: string) {
    ContainsAny(p, NumericRuns)
  }

  /** One of the letter runs occurs, ignoring the case of ASCII letters (the `i` flag). */
  predicate HasAlphaRun(p: string) {
    ContainsAny(Lower(p), AlphaRuns)
  }

  /** The leet substitution applied after lower-casing. */
  function Leet(c: char): char {
    match c
    case '0' => 'o'
    case '1' => 'i'
    case '3' => 'e'
    case '4' => 'a'
    case '@' => 'a'
    case '$' => 's'
    case '5' => 's'
    case '7' => 't'
    case _ => c
  }

  /** The characters the leet map replaces. */
  const LeetKeys: string := "0134@$57"

  /**
    Lower-case, then apply the leet map: 0→o, 1→i, 3→e, 4→a, @→a, $→s, 5→s, 7→t.
    No capital and no leet character survives, and every other character stays
    in place.
   */
  function Normalize(p: string): (r: string)
    ensures |r| == |p|
    ensures forall i :: 0 <= i < |r| ==> !IsAsciiUpper(r[i]) && r[i] !in LeetKeys
    ensures forall i :: 0 <= i < |p| && !IsAsciiUpper(p[i]) && p[i] !in LeetKeys ==> r[i] == p[i]
    ensures forall i :: 0 <= i < |p| && (IsAsciiUpper(p[i]) || p[i] in LeetKeys) ==> IsAsciiLower(r[i])
    ensures forall i :: 0 <= i < |p| && IsAsciiUpper(p[i]) ==> r[i] as int == p[i] as int + 32
    ensures forall i :: 0 <= i < |p| ==>
              && (p[i] == '0' ==> r[i] == 'o') && (p[i] == '1' ==> r[i] == 'i')
              && (p[i] == '3' ==> r[i] == 'e') && (p[i] == '4' ==> r[i] == 'a')
              && (p[i] == '@' ==> r[i] == 'a') && (p[i] == '$' ==> r[i] == 's')
              && (p[i] == '5' ==> r[i] == 's') && (p[i] == '7' ==> r[i] == 't')
  {
    seq(|p|, i requires 0 <= i < |p| => Leet(LowerChar(p[i])))
  }

  /** Normalizing twice is normalizing once. */
  lemma NormalizeIdempotent(p: string)
    ensures Normalize(Normalize(p)) == Normalize(p)
  {
  }

  /** The normalized password contains one of the nine dictionary words. */
  predicate HasCommonWord(p: string) {
    ContainsAny(Normalize(p), CommonWords)
  }

  /** `19dd` or `20[0-2]d` at position `i`. */
  predicate YearAt(p: string, i: int) {
    && 0 <= i && i + 4 <= |p|
    && IsAsciiDigit(p[i + 2]) && IsAsciiDigit(p[i + 3])
    && ((p[i] == '1' && p[i + 1] == '9') || (p[i] == '2' && p[i + 1] == '0' && '0' <= p[i + 2] <= '2'))
  }

  /**
    `/(19\d{2}|20[0-2]\d)[^\d]?((0?[1-9])|(1[0-2]))?/`: everything after the year is
    optional, so the test succeeds exactly when a year-like group occurs.
   */
  predicate HasYear(p: string) {
    exists i | 0 <= i <= |p| :: YearAt(p, i)
  }

  predicate Fires(k: PatternKind, p: string) {
    match k
    case Repetition => StartsWithRun(p)
    case RepeatedPattern => HasRepeatedBlock(p)
    case Sequence => HasNumericRun(p)
    case AlphaSequence => HasAlphaRun(p)
    case CommonWord => HasCommonWord(p)
    case Date => HasYear(p)
  }

  // ---------------------------------------------------------------------------
  // The detector.

  datatype Detection = Detection(patterns: seq<DetectedPattern>, penaltyBits: int)

  predicate HasKind(ps: seq<DetectedPattern>, k: PatternKind) {
    exists i | 0 <= i < |ps| :: ps[i].kind == k
  }

  function TotalPenalty(ps: seq<DetectedPattern>): int {
    if |ps| == 0 then 0 else TotalPenalty(ps[..|ps| - 1]) + ps[|ps| - 1].penaltyBits
  }

  /** Findings that are the canonical ones, in strictly increasing detector order. */
  predicate WellOrdered(ps: seq<DetectedPattern>) {
    && (forall i :: 0 <= i < |ps| ==> ps[i] == Finding(ps[i].kind))
    && (forall i, j :: 0 <= i < j < |ps| ==> Position(ps[i].kind) < Position(ps[j].kind))
  }

  /** The kinds present all come before position `n` in the detector order. */
  predicate KindsBefore(ps: seq<DetectedPattern>, n: nat) {
    forall i :: 0 <= i < |ps| ==> Position(ps[i].kind) < n
  }

  /** Appending a finding adds its penalty to the total. */
  lemma AppendPenalty(ps: seq<DetectedPattern>, k: PatternKind)
    ensures TotalPenalty(ps + [Finding(k)]) == TotalPenalty(ps) + Penalty(k)
  {
    var qs := ps + [Finding(k)];
    assert qs[..|qs| - 1] == ps;
  }

  /** Appending a finding of a later kind keeps the findings canonical and ordered. */
  lemma AppendOrdered(ps: seq<DetectedPattern>, k: PatternKind)
    requires WellOrdered(ps) && KindsBefore(ps, Position(k))
    ensures WellOrdered(ps + [Finding(k)]) && KindsBefore(ps + [Finding(k)], Position(k) + 1)
  {
  }

  /** Appending a finding adds exactly its kind. */
  lemma AppendKinds(ps: seq<DetectedPattern>, k: PatternKind)
    ensures forall q :: HasKind(ps + [Finding(k)], q) <==> HasKind(ps, q) || q == k
  {
    var qs := ps + [Finding(k)];
    assert qs[|ps|].kind == k;
    forall q | HasKind(qs, q)
      ensures HasKind(ps, q) || q == k
    {
      var i :| 0 <= i < |qs| && qs[i].kind == q;
      if i < |ps| {
        assert ps[i].kind == q;
      }
    }
    forall q | HasKind(ps, q)
      ensures HasKind(qs, q)
    {
      var i :| 0 <= i < |ps| && ps[i].kind == q;
      assert qs[i].kind == q;
    }
  }

  /** One test: append the finding of kind `k` and charge its penalty when the test fired. */
  function Step(d: Detection, k: PatternKind, fired: bool): (r: Detection)
    requires d.penaltyBits == TotalPenalty(d.patterns)
    requires WellOrdered(d.patterns) && KindsBefore(d.patterns, Position(k))
    ensures r.penaltyBits == TotalPenalty(r.patterns)
    ensures WellOrdered(r.patterns) && KindsBefore(r.patterns, Position(k) + 1)
    ensures forall q :: HasKind(r.patterns, q) <==> HasKind(d.patterns, q) || (q == k && fired)
    ensures r.penaltyBits == d.penaltyBits + (if fired then Penalty(k) else 0)
  {
    if fired then
      AppendPenalty(d.patterns, k);
      AppendOrdered(d.patterns, k);
      AppendKinds(d.patterns, k);
      Detection(d.patterns + [Finding(k)], d.penaltyBits + Penalty(k))
    else d
  }

  /** The outcome of each of the six tests. */
  datatype Outcomes = Outcomes(repetition: bool, repeatedPattern: bool, sequence: bool,
                               alphaSequence: bool, commonWord: bool, date: bool)
  {
    function Of(k: PatternKind): bool {
      match k
      case Repetition => repetition
      case RepeatedPattern => repeatedPattern
      case Sequence => sequence
      case AlphaSequence => alphaSequence
      case CommonWord => commonWord
      case Date => date
    }
  }

  function RunTests(p: string): (t: Outcomes)
    ensures forall k :: t.Of(k) == Fires(k, p)
  {
    Outcomes(StartsWithRun(p), HasRepeatedBlock(p), HasNumericRun(p),
             HasAlphaRun(p), HasCommonWord(p), HasYear(p))
  }

  /** The order in which the detector runs its tests. */
  const DetectorOrder: seq<PatternKind> := [Repetition, RepeatedPattern, Sequence, AlphaSequence, CommonWord, Date]

  lemma DetectorOrderPositions()
    ensures |DetectorOrder| == 6
    ensures forall i :: 0 <= i < 6 ==> Position(DetectorOrder[i]) == i
    ensures forall k :: DetectorOrder[Position(k)] == k
  {
  }

  /** The most the first `n` tests can charge together. */
  function PenaltyBudget(n: nat): int
    requires n <= 6
  {
    if n == 0 then 0 else PenaltyBudget(n - 1) + Penalty(DetectorOrder[n - 1])
  }

  /** The findings of the first `n` tests, appended in the detector's order. */
  function Collect(t: Outcomes, n: nat): (r: Detection)
    requires n <= 6
    ensures r.penaltyBits == TotalPenalty(r.patterns)
    ensures WellOrdered(r.patterns) && KindsBefore(r.patterns, n)
    ensures forall k :: HasKind(r.patterns, k) <==> Position(k) < n && t.Of(k)
    ensures 0 <= r.penaltyBits <= PenaltyBudget(n)
    decreases n
  {
    if n == 0 then Detection([], 0)
    else
      DetectorOrderPositions();
      var k := DetectorOrder[n - 1];
      Step(Collect(t, n - 1), k, t.Of(k))
  }

  /**
    `detectPatterns(password)`: no findings for the empty password; otherwise one
    finding per test that fires, in the fixed order, with the penalties summed.
   */
  function DetectPatterns(p: string): (r: Detection)
    ensures |p| == 0 ==> r == Detection([], 0)
    ensures r.penaltyBits == TotalPenalty(r.patterns)
    ensures WellOrdered(r.patterns)
    ensures forall k :: HasKind(r.patterns, k) <==> |p| > 0 && Fires(k, p)
    ensures 0 <= r.penaltyBits <= MaxPenalty
  {
    if |p| == 0 then Detection([], 0)
    else
      assert PenaltyBudget(6) == MaxPenalty;
      Collect(RunTests(p), 6)
  }

  /** With no negative penalty among them, the total is at least any single finding's penalty. */
  lemma {:induction false} TotalPenaltyCoversEach(ps: seq<DetectedPattern>, i: int)
    requires forall j :: 0 <= j < |ps| ==> ps[j].penaltyBits >= 0
    requires 0 <= i < |ps|
    ensures TotalPenalty(ps) >= ps[i].penaltyBits
    decreases |ps|
  {
    var init := ps[..|ps| - 1];
    if i < |ps| - 1 {
      TotalPenaltyCoversEach(init, i);
    } else if |init| > 0 {
      TotalPenaltyNonNegative(init);
    }
  }

  lemma {:induction false} TotalPenaltyNonNegative(ps: seq<DetectedPattern>)
    requires forall j :: 0 <= j < |ps| ==> ps[j].penaltyBits >= 0
    ensures TotalPenalty(ps) >= 0
    decreases |ps|
  {
    if |ps| > 0 {
      TotalPenaltyNonNegative(ps[..|ps| - 1]);
    }
  }

  /** Canonical findings are charged at least the penalty of every kind they include. */
  lemma KindPenaltyAtLeast(ps: seq<DetectedPattern>, k: PatternKind)
    requires WellOrdered(ps) && HasKind(ps, k)
    ensures TotalPenalty(ps) >= Penalty(k)
  {
    var i :| 0 <= i < |ps| && ps[i].kind == k;
    TotalPenaltyCoversEach(ps, i);
  }

  /** A finding of a kind is reported exactly when that kind's test fires, so each kind appears at most once. */
  lemma {:induction false} KindAtMostOnce(p: string, i: int, j: int)
    requires 0 <= i < j < |DetectPatterns(p).patterns|
    ensures DetectPatterns(p).patterns[i].kind != DetectPatterns(p).patterns[j].kind
  {
    var ps := DetectPatterns(p).patterns;
    assert Position(ps[i].kind) < Position(ps[j].kind);
  }

  /** A common-word finding is reported if and only if the normalized password holds a dictionary word. */
  lemma CommonWordIff(p: string)
    ensures HasKind(DetectPatterns(p).patterns, CommonWord)
            <==> |p| > 0 && exists j | 0 <= j < |CommonWords| :: Contains(Normalize(p), CommonWords[j])
  {
  }

  // ---------------------------------------------------------------------------
  // The detector's unit tests.

  lemma RepetitionExample()
    ensures HasKind(DetectPatterns("aaaa1111").patterns, Repetition)
  {
    assert StartsWithRun("aaaa1111");
  }

  lemma LeetCommonWordExample()
    ensures HasKind(DetectPatterns("P@ssw0rd").patterns, CommonWord)
  {
    var n := Normalize("P@ssw0rd");
    assert n == "password";
    assert OccursAt(n, CommonWords[0], 0);
  }

  lemma SequenceExample()
    ensures HasKind(DetectPatterns("123456").patterns, Sequence)
  {
    assert OccursAt("123456", NumericRuns[1], 0);
  }

  /** The passphrase of the unit tests on strong passwords. */
  const StrongPassphrase: string := "ChansonBleue-Soleil+Prairie2024!"

  /** The characters the normalized passphrase is made of. */
  const PassphraseLetters: string := "abcehilnoprsu2+-!"

  lemma PassphraseNormalized()
    ensures |Normalize(StrongPassphrase)| == 32
    ensures forall i :: 0 <= i < 32 ==> Normalize(StrongPassphrase)[i] in PassphraseLetters
  {
    var n := Normalize(StrongPassphrase);
    forall i | 0 <= i < 32
      ensures n[i] in PassphraseLetters
    {
      if i < 8 {} else if i < 16 {} else if i < 24 {} else {}
    }
  }

  /** A character outside those letters does not occur in the normalized passphrase. */
  lemma PassphraseLacks(c: char)
    requires c !in PassphraseLetters
    ensures c !in Normalize(StrongPassphrase)
  {
    PassphraseNormalized();
  }

  /** The dictionary word at `j` holds a letter the normalized passphrase lacks. */
  lemma PassphraseLacksWord(j: nat)
    requires j < |CommonWords|
    ensures !Contains(Normalize(StrongPassphrase), CommonWords[j])
  {
    var c := "wmqzwdtfm"[j];
    PassphraseLacks(c);
    assert c in CommonWords[j] by {
      if j < 3 {} else if j < 6 {} else {}
    }
    MissingCharacterNotContained(Normalize(StrongPassphrase), CommonWords[j], c);
  }

  /** Every dictionary word holds a letter the normalized passphrase lacks, so none occurs. */
  lemma PassphraseHasNoCommonWord()
    ensures !HasKind(DetectPatterns(StrongPassphrase).patterns, CommonWord)
  {
    forall j | 0 <= j < |CommonWords|
      ensures !Contains(Normalize(StrongPassphrase), CommonWords[j])
    {
      PassphraseLacksWord(j);
    }
    CommonWordIff(StrongPassphrase);
  }
}
