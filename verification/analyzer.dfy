/**
  `analyzePassword` of index.ts: the classes present, the character-set size,
  the distinct characters, the findings, the entropy, the score and the
  suggestions, put together. `Math.log2` is a parameter.
 */
module Analyzer {
  import opened Results
  import opened Text
  import opened CharClasses
  import opened Patterns
  import opened Entropy
  import opened Suggestions
  import Alphabets

  datatype AnalysisResult = AnalysisResult(
    length: nat,
    categories: Categories,
    characterSetSize: int,
    uniqueCharCount: nat,
    diversityRatio: real,
    rawEntropyBits: real,
    penaltiesBits: real,
    effectiveEntropyBits: real,
    strengthLabel: StrengthLabel,
    score: int,
    detectedPatterns: seq<DetectedPattern>,
    suggestions: seq<string>,
    notes: seq<string>)

  /** The two fixed notes of every analysis. */
  const Notes: seq<string> := ["Résultat indicatif", "Estimation pédagogique, pas une durée exacte"]

  /** The number of distinct characters of the password. */
  function UniqueCharCount(password: string): (n: nat)
    ensures n == |set i | 0 <= i < |password| :: password[i]|
    ensures n <= |password|
    ensures n == 0 <==> |password| == 0
  {
    var s := CharSet(password);
    assert s == set i | 0 <= i < |password| :: password[i] by {
      forall c | c in s
        ensures c in set i | 0 <= i < |password| :: password[i]
      {
        var i :| 0 <= i < |password| && password[i] == c;
      }
    }
    |s|
  }

  /** A share of a positive whole lies in `[0, 1]` and is zero only for nothing. */
  lemma ShareBounds(part: nat, whole: nat)
    requires 0 < whole && part <= whole
    ensures 0.0 <= part as real / whole as real <= 1.0
    ensures part as real / whole as real == 0.0 <==> part == 0
    ensures part as real / whole as real * whole as real == part as real
  {
  }

  /**
    The share of distinct characters among at least one position; zero when no
    class is present.
   */
  function DiversityRatio(characterSetSize: int, uniqueCharCount: nat, length: nat): (r: real)
    requires uniqueCharCount <= length
    ensures 0.0 <= r <= 1.0
    ensures r == 0.0 <==> characterSetSize == 0 || uniqueCharCount == 0
    ensures characterSetSize != 0 ==> r * Max(length, 1) as real == uniqueCharCount as real
  {
    if characterSetSize == 0 then 0.0
    else
      ShareBounds(uniqueCharCount, Max(length, 1));
      uniqueCharCount as real / Max(length, 1) as real
  }

  /** The size the entropy is computed with: the set size, with zero replaced by one. */
  function EntropyBase(characterSetSize: int): (n: int)
    ensures characterSetSize >= 0 ==> n == Max(characterSetSize, 1)
  {
    if characterSetSize == 0 then 1 else characterSetSize
  }

  /**
    `analyzePassword`. The size passed to the entropy is the set size with zero replaced by one,
    so an empty password has a raw entropy of zero whatever `log2` is; a common
    word leaves a single bit.
   */
  function AnalyzePassword(password: string, log2: real -> real): (a: AnalysisResult)
    ensures a.length == |password|
    ensures a.categories == DetectCategories(password)
    ensures 0 <= a.characterSetSize <= 94 && (a.characterSetSize == 0 <==> |password| == 0)
    ensures a.uniqueCharCount == |set i | 0 <= i < |password| :: password[i]|
    ensures 0.0 <= a.diversityRatio <= 1.0 && (a.diversityRatio == 0.0 <==> |password| == 0)
    ensures a.detectedPatterns == DetectPatterns(password).patterns
    ensures a.rawEntropyBits == RawEntropy(|password|, EntropyBase(a.characterSetSize), log2)
    ensures a.penaltiesBits >= DetectPatterns(password).penaltyBits as real
    ensures a.effectiveEntropyBits >= 1.0
    ensures HasKind(a.detectedPatterns, CommonWord) ==> a.effectiveEntropyBits == 1.0
    ensures a.strengthLabel == ScoreFromEntropy(a.effectiveEntropyBits).strengthLabel
    ensures a.score == ScoreFromEntropy(a.effectiveEntropyBits).score
    ensures a.characterSetSize == CharacterSetSize(a.categories)
    ensures a.uniqueCharCount <= |password|
    ensures a.diversityRatio == DiversityRatio(a.characterSetSize, a.uniqueCharCount, |password|)
    ensures var e := CalculateEntropy(password, EntropyBase(a.characterSetSize),
                                      DetectPatterns(password).penaltyBits as real, a.detectedPatterns, log2);
            a.penaltiesBits == e.penaltiesBits && a.effectiveEntropyBits == e.effectiveEntropyBits
    ensures |a.suggestions| <= MaxSuggestions && Render(Passphrase) in a.suggestions
    ensures a.suggestions == GenerateSuggestions(SuggestionInput(|password|, a.categories, a.uniqueCharCount, a.detectedPatterns))
    ensures a.notes == Notes
  {
    var categories := DetectCategories(password);
    var size := CharacterSetSize(categories);
    CharacterSetSizeRange(password);
    var unique := UniqueCharCount(password);
    var detection := DetectPatterns(password);
    var entropy := CalculateEntropy(password, EntropyBase(size), detection.penaltyBits as real,
                                    detection.patterns, log2);
    CommonWordLeavesOneBit(password, EntropyBase(size), log2);
    var strength := ScoreFromEntropy(entropy.effectiveEntropyBits);
    var input := SuggestionInput(|password|, categories, unique, detection.patterns);
    PassphraseAlwaysOffered(input);
    AnalysisResult(
      |password|, categories, size, unique, DiversityRatio(size, unique, |password|),
      entropy.rawEntropyBits, entropy.penaltiesBits, entropy.effectiveEntropyBits,
      strength.strengthLabel, strength.score, detection.patterns,
      GenerateSuggestions(input), Notes)
  }

  /**
    With the detector's own findings and charge, a common word leaves exactly
    one bit, whatever the character-set size: the charge holds its 25 bits and
    the surcharge removes everything above 15 bits of raw entropy.
   */
  lemma CommonWordLeavesOneBit(password: string, characterSetSize: int, log2: real -> real)
    ensures var d := DetectPatterns(password);
            HasKind(d.patterns, CommonWord) ==>
              CalculateEntropy(password, characterSetSize, d.penaltyBits as real, d.patterns, log2).effectiveEntropyBits == 1.0
  {
    var d := DetectPatterns(password);
    if HasKind(d.patterns, CommonWord) {
      KindPenaltyAtLeast(d.patterns, CommonWord);
      CommonWordFloorsEntropy(password, characterSetSize, d.penaltyBits as real, d.patterns, log2);
    }
  }

  /**
    The empty password: no class, no finding, no raw entropy, yet one bit of
    effective entropy, hence the lowest label and a score of one. Effective
    entropy exceeds raw entropy here and only here.
   */
  lemma EmptyPassword(log2: real -> real)
    ensures var a := AnalyzePassword("", log2);
            && a.characterSetSize == 0
            && a.detectedPatterns == []
            && a.rawEntropyBits == 0.0
            && a.effectiveEntropyBits == 1.0
            && a.strengthLabel == VeryWeak
            && a.score == 1
  {
    CharacterSetSizeRange("");
    assert CharacterSetSize(DetectCategories("")) == 0;
    assert RawEntropy(0, 1, log2) == 0.0;
    var e := CalculateEntropy("", 1, 0.0, [], log2);
    assert e.effectiveEntropyBits == 1.0;
    var strength := ScoreFromEntropy(1.0);
    assert strength.score == 1 && strength.strengthLabel == VeryWeak;
  }

  /** A nonempty password never gets more effective than raw entropy. */
  lemma NonemptyEffectiveAtMostRaw(password: string, log2: real -> real)
    requires IsLog2(log2)
    requires |password| > 0
    ensures var a := AnalyzePassword(password, log2);
            1.0 <= a.effectiveEntropyBits <= a.rawEntropyBits
  {
    var size := CharacterSetSize(DetectCategories(password));
    CharacterSetSizeRange(password);
    RawEntropyAtLeastLength(|password|, EntropyBase(size), log2);
    var detection := DetectPatterns(password);
    EffectiveAtMostRaw(password, EntropyBase(size), detection.penaltyBits as real, detection.patterns, log2);
  }

  /** The digits of "123456": only the digit class is present, so the set has ten characters. */
  lemma DigitsOnly()
    ensures CharacterSetSize(DetectCategories("123456")) == 10
  {
    var p := "123456";
    var c := DetectCategories(p);
    assert forall i :: 0 <= i < |p| ==> IsAsciiDigit(p[i]);
    assert c.hasDigits by {
      assert IsAsciiDigit(p[0]);
    }
  }

  /** "123456" holds a sequence, which charges at least its 12 bits. */
  lemma SequenceCharged()
    ensures var d := DetectPatterns("123456");
            HasKind(d.patterns, Sequence) && d.penaltyBits >= 12
  {
    SequenceExample();
    KindPenaltyAtLeast(DetectPatterns("123456").patterns, Sequence);
  }

  /**
    The unit test on "123456": a sequence is found and, with at most four bits
    for each of six digits less the 12-bit charge, the score stays under 20.
   */
  lemma SequenceScoresLow(log2: real -> real)
    requires IsLog2(log2)
    ensures var a := AnalyzePassword("123456", log2);
            HasKind(a.detectedPatterns, Sequence) && a.score < 20
  {
    var p := "123456";
    DigitsOnly();
    SequenceCharged();
    RawEntropyAtMostFourPerCharacter(6, 10, log2);
    var d := DetectPatterns(p);
    var e := CalculateEntropy(p, 10, d.penaltyBits as real, d.patterns, log2);
    assert e.effectiveEntropyBits <= 12.0;
    ScoreMonotone(e.effectiveEntropyBits, 12.0);
  }

  /** The unit test on "P@ssw0rd": the leet-spelt common word is found and leaves a single bit. */
  lemma LeetWordScoresLow(log2: real -> real)
    ensures var a := AnalyzePassword("P@ssw0rd", log2);
            HasKind(a.detectedPatterns, CommonWord) && a.effectiveEntropyBits == 1.0 < 30.0
  {
    LeetCommonWordExample();
  }

  /** A password with a character of each class counts the full 94-character set. */
  lemma FullSetOfWitnesses(p: string, lower: nat, upper: nat, digit: nat, symbol: nat)
    requires lower < |p| && upper < |p| && digit < |p| && symbol < |p|
    requires IsAsciiLower(p[lower]) && IsAsciiUpper(p[upper]) && IsAsciiDigit(p[digit]) && !IsAlphanumeric(p[symbol])
    ensures CharacterSetSize(DetectCategories(p)) == 94
  {
    Alphabets.AlphabetSizes();
  }

  /** The passphrase of the unit tests shows all four classes: the full 94-character set. */
  lemma PassphraseFullSet()
    ensures CharacterSetSize(DetectCategories(StrongPassphrase)) == 94
  {
    var p := StrongPassphrase;
    assert IsAsciiUpper(p[0]) && IsAsciiLower(p[1]) && IsAsciiDigit(p[27]) && !IsAlphanumeric(p[12]);
    FullSetOfWitnesses(p, 1, 0, 27, 12);
  }

  /** Thirty-two characters of the full set without a common word. */
  predicate LongFullSetNoWord(p: string) {
    && |p| == 32
    && CharacterSetSize(DetectCategories(p)) == 94
    && !HasKind(DetectPatterns(p).patterns, CommonWord)
  }

  /**
    Such a password has at least 192 raw bits; at most 73 bits of findings and
    the 5-bit surcharge come off, so at least 114 effective bits remain: the top
    label and the top score.
   */
  lemma FullSetWithoutCommonWord(p: string, log2: real -> real)
    requires IsLog2(log2)
    requires LongFullSetNoWord(p)
    ensures var a := AnalyzePassword(p, log2);
            && a.effectiveEntropyBits >= 114.0
            && a.score == 100
            && a.strengthLabel == VeryStrong
  {
    RawEntropyAtLeastSixPerCharacter(32, 94, log2);
    var d := DetectPatterns(p);
    var e := CalculateEntropy(p, 94, d.penaltyBits as real, d.patterns, log2);
    assert e.effectiveEntropyBits >= 114.0;
  }

  /** The passphrase of the unit tests is such a password. */
  lemma PassphraseShape()
    ensures LongFullSetNoWord(StrongPassphrase)
  {
    PassphraseFullSet();
    PassphraseHasNoCommonWord();
  }

  /**
    The unit test on the passphrase: more than 80 effective bits, hence the top
    label and a score above 60.
   */
  lemma PassphraseScoresHigh(log2: real -> real)
    requires IsLog2(log2)
    ensures var a := AnalyzePassword(StrongPassphrase, log2);
            && a.effectiveEntropyBits >= 114.0
            && a.score == 100
            && a.strengthLabel == VeryStrong
  {
    PassphraseShape();
    FullSetWithoutCommonWord(StrongPassphrase, log2);
  }
}
