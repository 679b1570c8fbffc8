/**
  Entropy and scoring (`calculateEntropy` and `scoreFromEntropy` in index.ts).

  `Math.log2` is not part of the model: callers pass the logarithm in as a
  function and the contracts rely only on the laws of `IsLog2`. Numbers are exact
  reals; `Math.round` is `Floor(x + 0.5)`.
 */
module Entropy {
  import opened Results
  import opened Patterns

  /** What the model relies on about `Math.log2`: exact on the powers of two it meets, and monotone. */
  ghost predicate IsLog2(log2: real -> real) {
    && log2(1.0) == 0.0
    && log2(2.0) == 1.0
    && log2(16.0) == 4.0
    && log2(64.0) == 6.0
    && forall x, y :: 1.0 <= x <= y ==> log2(x) <= log2(y)
  }

  /** Bits of raw entropy above which a common word costs everything extra. */
  const CommonWordAllowance: real := 15.0

  /** Flat surcharge once a repetition or a repeated block was found. */
  const RepetitionSurcharge: real := 5.0

  /** `length * log2(characterSetSize)`: the bits of a password drawn uniformly from its classes. */
  function RawEntropy(length: nat, characterSetSize: int, log2: real -> real): real {
    length as real * BitsPerCharacter(characterSetSize, log2)
  }

  /** `Math.log2(characterSetSize)`: the bits one character drawn from the set carries. */
  function BitsPerCharacter(characterSetSize: int, log2: real -> real): real {
    log2(characterSetSize as real)
  }

  /** At least `b` bits for each of `n` characters make at least `b * n` bits. */
  lemma AtLeastPerCharacter(n: real, x: real, b: real)
    requires n >= 0.0 && x >= b
    ensures n * x >= b * n
  {
  }

  /** At most `b` bits for each of `n` characters make at most `b * n` bits. */
  lemma AtMostPerCharacter(n: real, x: real, b: real)
    requires n >= 0.0 && x <= b
    ensures n * x <= b * n
  {
  }

  /** From two symbols on, every character carries at least one bit. */
  lemma RawEntropyAtLeastLength(length: nat, characterSetSize: int, log2: real -> real)
    requires IsLog2(log2) && 2 <= characterSetSize
    ensures RawEntropy(length, characterSetSize, log2) >= length as real
  {
    var x := BitsPerCharacter(characterSetSize, log2);
    assert BitsPerCharacter(2, log2) <= x;
    AtLeastPerCharacter(length as real, x, 1.0);
  }

  /** Up to sixteen symbols, no character carries more than four bits. */
  lemma RawEntropyAtMostFourPerCharacter(length: nat, characterSetSize: int, log2: real -> real)
    requires IsLog2(log2) && 1 <= characterSetSize <= 16
    ensures RawEntropy(length, characterSetSize, log2) <= 4.0 * length as real
  {
    var x := BitsPerCharacter(characterSetSize, log2);
    assert x <= BitsPerCharacter(16, log2);
    AtMostPerCharacter(length as real, x, 4.0);
  }

  /** From sixty-four symbols on, every character carries at least six bits. */
  lemma RawEntropyAtLeastSixPerCharacter(length: nat, characterSetSize: int, log2: real -> real)
    requires IsLog2(log2) && 64 <= characterSetSize
    ensures RawEntropy(length, characterSetSize, log2) >= 6.0 * length as real
  {
    var x := BitsPerCharacter(characterSetSize, log2);
    assert BitsPerCharacter(64, log2) <= x;
    AtLeastPerCharacter(length as real, x, 6.0);
  }

  datatype EntropyBits = EntropyBits(rawEntropyBits: real, penaltiesBits: real, effectiveEntropyBits: real)

  predicate HasRepetitionKind(patterns: seq<DetectedPattern>) {
    HasKind(patterns, Repetition) || HasKind(patterns, RepeatedPattern)
  }

  /**
    `calculateEntropy`: raw entropy is `length * log2(characterSetSize)`; the charge
    is the base penalty plus the common-word and repetition surcharges; the
    effective entropy is what is left, but never less than one bit.
   */
  function CalculateEntropy(password: string, characterSetSize: int, basePenaltyBits: real,
                            patterns: seq<DetectedPattern>, log2: real -> real): (e: EntropyBits)
    ensures e.rawEntropyBits == RawEntropy(|password|, characterSetSize, log2)
    ensures e.penaltiesBits >= basePenaltyBits
    ensures !HasKind(patterns, CommonWord) && !HasRepetitionKind(patterns) ==> e.penaltiesBits == basePenaltyBits
    ensures HasKind(patterns, CommonWord) ==>
              e.rawEntropyBits - e.penaltiesBits <= CommonWordAllowance - basePenaltyBits
    ensures HasRepetitionKind(patterns) ==> e.penaltiesBits >= basePenaltyBits + RepetitionSurcharge
    ensures !HasKind(patterns, CommonWord) ==> e.penaltiesBits <= basePenaltyBits + RepetitionSurcharge
    ensures HasKind(patterns, CommonWord) ==>
              e.penaltiesBits == basePenaltyBits + RealMax(e.rawEntropyBits - CommonWordAllowance, 0.0)
                                 + (if HasRepetitionKind(patterns) then RepetitionSurcharge else 0.0)
    ensures e.effectiveEntropyBits >= 1.0
    ensures e.effectiveEntropyBits >= e.rawEntropyBits - e.penaltiesBits
    ensures e.effectiveEntropyBits == 1.0 || e.effectiveEntropyBits == e.rawEntropyBits - e.penaltiesBits
  {
    var raw := RawEntropy(|password|, characterSetSize, log2);
    var common :=
      if HasKind(patterns, CommonWord) then (if raw > CommonWordAllowance then raw - CommonWordAllowance else 0.0)
      else 0.0;
    var repeated := if HasRepetitionKind(patterns) then RepetitionSurcharge else 0.0;
    var penalties := basePenaltyBits + common + repeated;
    EntropyBits(raw, penalties, RealMax(raw - penalties, 1.0))
  }

  /** With a non-negative base penalty the effective entropy never exceeds a raw entropy of at least one bit. */
  lemma EffectiveAtMostRaw(password: string, characterSetSize: int, basePenaltyBits: real,
                           patterns: seq<DetectedPattern>, log2: real -> real)
    requires basePenaltyBits >= 0.0
    requires RawEntropy(|password|, characterSetSize, log2) >= 1.0
    ensures var e := CalculateEntropy(password, characterSetSize, basePenaltyBits, patterns, log2);
            e.effectiveEntropyBits <= e.rawEntropyBits
  {
  }

  /**
    A common word leaves exactly one bit: the base penalty already holds its 25
    bits and the surcharge removes everything above 15 bits of raw entropy.
   */
  lemma CommonWordFloorsEntropy(password: string, characterSetSize: int, basePenaltyBits: real,
                                patterns: seq<DetectedPattern>, log2: real -> real)
    requires HasKind(patterns, CommonWord)
    requires basePenaltyBits >= Penalty(CommonWord) as real
    ensures CalculateEntropy(password, characterSetSize, basePenaltyBits, patterns, log2).effectiveEntropyBits == 1.0
  {
  }

  // ---------------------------------------------------------------------------
  // Labels and score.

  datatype StrengthLabel = VeryWeak | Weak | Medium | Strong | VeryStrong

  function LabelText(l: StrengthLabel): string {
    match l
    case VeryWeak => "Très faible"
    case Weak => "Faible"
    case Medium => "Moyen"
    case Strong => "Fort"
    case VeryStrong => "Très fort"
  }

  /** The label's rank, weakest first. */
  function Tier(l: StrengthLabel): nat {
    match l
    case VeryWeak => 0
    case Weak => 1
    case Medium => 2
    case Strong => 3
    case VeryStrong => 4
  }

  /** `Math.round`: the nearest integer, halves rounded up. */
  function Round(x: real): (n: int)
    ensures x - 0.5 < n as real <= x + 0.5
  {
    (x + 0.5).Floor
  }

  datatype Strength = Strength(score: int, strengthLabel: StrengthLabel)

  /**
    `scoreFromEntropy`: the label by the thresholds 28/36/60/80 bits, and the score
    as `1.2 * e` rounded to the nearest integer and clamped to `[0, 100]`.
   */
  function ScoreFromEntropy(e: real): (s: Strength)
    ensures 0 <= s.score <= 100
    ensures s.strengthLabel == VeryWeak <==> e < 28.0
    ensures s.strengthLabel == Weak <==> 28.0 <= e < 36.0
    ensures s.strengthLabel == Medium <==> 36.0 <= e < 60.0
    ensures s.strengthLabel == Strong <==> 60.0 <= e < 80.0
    ensures s.strengthLabel == VeryStrong <==> 80.0 <= e
    ensures 0.0 <= e * 1.2 <= 99.5 ==> e * 1.2 - 0.5 < s.score as real <= e * 1.2 + 0.5
    ensures s.score == 100 <==> e * 1.2 >= 99.5
    ensures s.score == 0 <==> e * 1.2 < 0.5
  {
    var tier :=
      if e < 28.0 then VeryWeak
      else if e < 36.0 then Weak
      else if e < 60.0 then Medium
      else if e < 80.0 then Strong
      else VeryStrong;
    var score := Max(0, Min(100, Round(e / 100.0 * 120.0)));
    Strength(score, tier)
  }

  /** More entropy never lowers the label nor the score. */
  lemma ScoreMonotone(e1: real, e2: real)
    requires e1 <= e2
    ensures Tier(ScoreFromEntropy(e1).strengthLabel) <= Tier(ScoreFromEntropy(e2).strengthLabel)
    ensures ScoreFromEntropy(e1).score <= ScoreFromEntropy(e2).score
  {
    assert (e1 / 100.0 * 120.0 + 0.5).Floor <= (e2 / 100.0 * 120.0 + 0.5).Floor;
  }

  /** The label table of the unit tests. */
  lemma LabelTable()
    ensures ScoreFromEntropy(10.0).strengthLabel == VeryWeak
    ensures ScoreFromEntropy(30.0).strengthLabel == Weak
    ensures ScoreFromEntropy(50.0).strengthLabel == Medium
    ensures ScoreFromEntropy(70.0).strengthLabel == Strong
    ensures ScoreFromEntropy(90.0).strengthLabel == VeryStrong
    ensures LabelText(ScoreFromEntropy(10.0).strengthLabel) == "Très faible"
    ensures LabelText(ScoreFromEntropy(90.0).strengthLabel) == "Très fort"
  {
  }
}
