/**
  `analyzeAndEstimate` and `generateWithAnalysis` of index.ts: the analysis of
  a password with its crack-time estimates, and a generated password analysed
  the same way. `Math.log2`, `Math.pow(2, x)` and the random words are
  parameters, as in the modules they combine.
 */
module Composition {
  import opened Results
  import opened Text
  import opened Alphabets
  import opened CharClasses
  import opened Patterns
  import opened Entropy
  import opened Suggestions
  import opened Analyzer
  import opened Randomness
  import opened Options
  import CrackTimes
  import IndexGenerator

  datatype Report = Report(analysis: AnalysisResult, crackTimes: CrackTimes.CrackTimes, suggestions: seq<string>)

  datatype GeneratedReport = GeneratedReport(password: string, report: Report)

  /**
    `analyzeAndEstimate`: the crack times are those of the analysis's effective
    entropy and the suggestions are the analysis's own.
   */
  function AnalyzeAndEstimate(password: string, log2: real -> real, pow2: real -> real): (r: Report)
    requires CrackTimes.IsPow2(pow2)
    ensures r.analysis == AnalyzePassword(password, log2)
    ensures r.crackTimes == CrackTimes.EstimateCrackTimes(r.analysis.effectiveEntropyBits, pow2)
    ensures r.suggestions == r.analysis.suggestions
    ensures |r.suggestions| <= MaxSuggestions && Suggestions.Render(Passphrase) in r.suggestions
    ensures HasKind(r.analysis.detectedPatterns, CommonWord) ==>
              && r.crackTimes.offlineFast.formattedTime == "< 1 seconde"
              && r.crackTimes.offlineMedium.formattedTime == "< 1 seconde"
              && r.crackTimes.onlineLimited.formattedTime == "< 1 seconde"
  {
    var analysis := AnalyzePassword(password, log2);
    var times := CrackTimes.EstimateCrackTimes(analysis.effectiveEntropyBits, pow2);
    assert HasKind(analysis.detectedPatterns, CommonWord) ==>
             && times.offlineFast.formattedTime == "< 1 seconde"
             && times.offlineMedium.formattedTime == "< 1 seconde"
             && times.onlineLimited.formattedTime == "< 1 seconde"
    by {
      if HasKind(analysis.detectedPatterns, CommonWord) {
        CrackTimes.LowEntropyIsInstant(analysis.effectiveEntropyBits, pow2);
      }
    }
    Report(analysis, times, analysis.suggestions)
  }

  /**
    `generateWithAnalysis`: a generator error propagates unchanged; otherwise
    the generated password comes with its analysis.
   */
  function GenerateWithAnalysis(o: GeneratorOptions, src: Stream, log2: real -> real, pow2: real -> real)
    : (r: Result<GeneratedReport, GenError>)
    requires CrackTimes.IsPow2(pow2)
    ensures r.Failure? <==> IndexGenerator.GeneratePassword(o, src).Failure?
    ensures r.Failure? ==> r.error == IndexGenerator.GeneratePassword(o, src).error
    ensures r.Success? ==>
              && IndexGenerator.Valid(o)
              && r.value.password == IndexGenerator.GeneratePassword(o, src).value.value
              && |r.value.password| == o.length
              && r.value.report == AnalyzeAndEstimate(r.value.password, log2, pow2)
  {
    match IndexGenerator.GeneratePassword(o, src)
    case Failure(e) => Failure(e)
    case Success(drawn) => Success(GeneratedReport(drawn.value, AnalyzeAndEstimate(drawn.value, log2, pow2)))
  }

  /** The class tests of the analyzer agree with the class a generator assigns. */
  lemma ClassTests(c: char)
    ensures IsAsciiLower(c) <==> ClassOf(c) == Lower
    ensures IsAsciiUpper(c) <==> ClassOf(c) == Upper
    ensures IsAsciiDigit(c) <==> ClassOf(c) == Digit
    ensures !IsAlphanumeric(c) <==> ClassOf(c) == Symbol
  {
  }

  /** A string whose characters all belong to selected categories shows no other category. */
  lemma OnlySelectedDetected(o: GeneratorOptions, pw: string)
    requires forall i :: 0 <= i < |pw| ==> Selected(o, ClassOf(pw[i]))
    ensures var c := DetectCategories(pw);
            && (c.hasLowercase ==> o.includeLowercase)
            && (c.hasUppercase ==> o.includeUppercase)
            && (c.hasDigits ==> o.includeDigits)
            && (c.hasSymbols ==> o.includeSymbols)
  {
    forall i | 0 <= i < |pw|
      ensures && (IsAsciiLower(pw[i]) ==> o.includeLowercase)
              && (IsAsciiUpper(pw[i]) ==> o.includeUppercase)
              && (IsAsciiDigit(pw[i]) ==> o.includeDigits)
              && (!IsAlphanumeric(pw[i]) ==> o.includeSymbols)
    {
      ClassTests(pw[i]);
    }
  }

  /** A string that covers the selection shows every selected category. */
  lemma CoveredDetected(o: GeneratorOptions, pw: string)
    requires Covers(o, pw)
    ensures var c := DetectCategories(pw);
            && (o.includeLowercase ==> c.hasLowercase)
            && (o.includeUppercase ==> c.hasUppercase)
            && (o.includeDigits ==> c.hasDigits)
            && (o.includeSymbols ==> c.hasSymbols)
  {
    forall i | 0 <= i < |pw|
      ensures && (ClassOf(pw[i]) == Lower ==> IsAsciiLower(pw[i]))
              && (ClassOf(pw[i]) == Upper ==> IsAsciiUpper(pw[i]))
              && (ClassOf(pw[i]) == Digit ==> IsAsciiDigit(pw[i]))
              && (ClassOf(pw[i]) == Symbol ==> !IsAlphanumeric(pw[i]))
    {
      ClassTests(pw[i]);
    }
    assert Selected(o, Lower) == o.includeLowercase && Selected(o, Upper) == o.includeUppercase;
    assert Selected(o, Digit) == o.includeDigits && Selected(o, Symbol) == o.includeSymbols;
  }

  /**
    A generated password shows only the categories that were selected, and,
    when each type is required, every one of them: the analysis then reads the
    selection back exactly.
   */
  lemma GeneratedCategories(o: GeneratorOptions, src: Stream)
    requires IndexGenerator.GeneratePassword(o, src).Success?
    ensures var c := DetectCategories(IndexGenerator.GeneratePassword(o, src).value.value);
            && (c.hasLowercase ==> o.includeLowercase)
            && (c.hasUppercase ==> o.includeUppercase)
            && (c.hasDigits ==> o.includeDigits)
            && (c.hasSymbols ==> o.includeSymbols)
            && (o.requireEachSelectedType ==>
                  && c.hasLowercase == o.includeLowercase
                  && c.hasUppercase == o.includeUppercase
                  && c.hasDigits == o.includeDigits
                  && c.hasSymbols == o.includeSymbols)
  {
    var pw := IndexGenerator.GeneratePassword(o, src).value.value;
    GeneratedFromSelected(o, src);
    OnlySelectedDetected(o, pw);
    if o.requireEachSelectedType {
      IndexGenerator.GeneratedContents(o, src);
      CoveredDetected(o, pw);
    }
  }

  /** Every character of a generated password belongs to a selected category. */
  lemma GeneratedFromSelected(o: GeneratorOptions, src: Stream)
    requires IndexGenerator.GeneratePassword(o, src).Success?
    ensures var pw := IndexGenerator.GeneratePassword(o, src).value.value;
            forall i :: 0 <= i < |pw| ==> Selected(o, ClassOf(pw[i]))
  {
    var pw := IndexGenerator.GeneratePassword(o, src).value.value;
    IndexGenerator.GeneratedContents(o, src);
    IndexCharsetsWellFormed();
    forall i | 0 <= i < |pw|
      ensures Selected(o, ClassOf(pw[i]))
    {
      assert pw[i] in IndexGenerator.AllChars(o, IndexCharsets);
      PoolCharacterSelected(o, IndexCharsets, pw[i]);
    }
  }

  /**
    With all four categories selected and each required, the analysis of a
    generated password counts the full 94-character set, so every character
    carries at least six bits of raw entropy: at least 48 bits in all.
   */
  lemma FullSelectionEntropy(o: GeneratorOptions, src: Stream, log2: real -> real, pow2: real -> real)
    requires IsLog2(log2) && CrackTimes.IsPow2(pow2)
    requires o.includeLowercase && o.includeUppercase && o.includeDigits && o.includeSymbols
    requires o.requireEachSelectedType
    requires GenerateWithAnalysis(o, src, log2, pow2).Success?
    ensures var a := GenerateWithAnalysis(o, src, log2, pow2).value.report.analysis;
            && a.characterSetSize == 94
            && a.rawEntropyBits >= 6.0 * o.length as real >= 48.0
  {
    GeneratedCategories(o, src);
    var pw := IndexGenerator.GeneratePassword(o, src).value.value;
    RawEntropyAtLeastSixPerCharacter(|pw|, 94, log2);
  }
}
