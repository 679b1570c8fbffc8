# Password strength core, in Dafny

A model of the core package of a password tool, written in TypeScript. The
core has three parts:

- **The analyzer.** `analyzePassword` in index.ts detects the character
  classes of a password and derives a character-set size. It finds six weak
  patterns (a run at the start, a repeated block, digit runs, letter runs,
  dictionary words after leet substitution, years). It computes raw and
  effective entropy with penalties. It maps the entropy to a label and a
  score, and ranks up to eight suggestions. `estimateCrackTimes` and its
  `formatTime` turn the entropy into three attack scenarios.
- **The two generators.** One is `generatePassword` in index.ts; the other is
  `validateOptions`, `buildPool`, `pickRequiredCharacters`, `randomChar` and
  `generatePassword` in generation.ts. Both build a buffer from pools of
  characters. They may seed it with one character of each selected class,
  fill it while rejecting adjacent repeats on request, and shuffle it with
  Fisher–Yates.
- **The helpers of common.ts.** `secureRandomIndices`, `secureShuffle` and a
  second `formatTime` with calendar units and an "(estimation)" tag.

Randomness is a finite stream of 32-bit words, and every draw is
`word % bound`, exactly as written. A generator therefore returns the
password together with the words it did not read. `Math.log2` and
`Math.pow(2, x)` are function parameters constrained by a few laws (`IsLog2`,
`IsPow2`). Numbers are exact reals. Strings are `seq<char>`.

Modules, in dependency order:

- `Results`: the result type.
- `Text`: character classes, decimal rendering, substrings.
- `Alphabets`: the alphabets and the ambiguous-character filter.
- `CharClasses`: the class tests and the set size.
- `Patterns`: the detector.
- `Entropy`: entropy, label and score.
- `Suggestions`: the candidate suggestions, their stable sort and the cut.
- `Analyzer`: `analyzePassword`.
- `CrackTimes`: the index.ts estimates and formatter.
- `CommonFormat`: the common.ts formatter.
- `Randomness`: random indices and the shuffle.
- `Options`: the options and pools shared by both generators.
- `Generation`: generation.ts.
- `IndexGenerator`: the generator of index.ts.
- `Composition`: `analyzeAndEstimate` and `generateWithAnalysis`.

Three facts about the code that a reader might not expect:

- The digit-run test lists fourteen four-digit runs.
- No suggestion is made for a missing lowercase class.
- The empty password gets 1 effective bit from 0 raw bits
  (`Analyzer.EmptyPassword`).

## Model

| member | source | states |
|---|---|---|
| Text.NatToString | password-app/packages/core/src/index.ts:222-232 | the decimal text of an amount: digits only, nonempty, no leading zero |
| Text.DecimalRoundTrip | password-app/packages/core/src/index.ts:222-232 | reading the rendered digits back gives the amount, so the rendering loses nothing |
| Text.NatToStringInjective | password-app/packages/core/src/common.ts:47-50 | different amounts never render to the same text |
| Text.MissingCharacterNotContained | password-app/packages/core/src/index.ts:150 | `includes` fails when the word holds a character the text lacks |
| Alphabets.RemoveAmbiguous | password-app/packages/core/src/generation.ts:17-22 | the filter keeps exactly the characters outside O, 0, l, 1, I, and never lengthens |
| Alphabets.RemoveAmbiguousCounts | password-app/packages/core/src/generation.ts:17-22 | each unambiguous character keeps its number of occurrences; ambiguous ones occur zero times |
| Alphabets.RemoveAmbiguousKeepsClean | password-app/packages/core/src/generation.ts:17-22 | a string without ambiguous characters passes unchanged; with the concatenation rule this fixes the order of the result |
| Alphabets.RemoveAmbiguousConcat | password-app/packages/core/src/index.ts:335-344 | filtering pool by pool equals filtering the concatenation |
| Alphabets.SymbolPositions | password-app/packages/core/src/index.ts:73 | neither symbol alphabet contains a letter or a digit |
| Alphabets.IndexCharsetsWellFormed | password-app/packages/core/src/index.ts:320-329 | each index.ts alphabet holds only its own class and keeps a character after filtering |
| Alphabets.GenerationCharsetsWellFormed | password-app/packages/core/src/generation.ts:4-8 | the same for the generation.ts alphabets, whose symbols differ |
| CharClasses.DetectCategories | password-app/packages/core/src/index.ts:77-80 | each class flag holds exactly when some character of the password is in that class |
| CharClasses.NonemptyHasClass | password-app/packages/core/src/index.ts:77-81 | some class is present exactly when the password is nonempty |
| CharClasses.CharacterSetSizeRange | password-app/packages/core/src/index.ts:81 | the size lies in [0, 94]; it is 0 exactly for the empty password and otherwise at least 10 |
| Patterns.Normalize | password-app/packages/core/src/index.ts:145-149 | the length is kept; each capital becomes its lower-case letter; the leet keys map 0→o, 1→i, 3→e, 4→a, @→a, $→s, 5→s, 7→t; no capital and no leet key survives; every other character stays in place |
| Patterns.NormalizeIdempotent | password-app/packages/core/src/index.ts:145-149 | normalizing a normalized password changes nothing |
| Patterns.Collect | password-app/packages/core/src/index.ts:125-158 | after the first n tests: a finding per test that fired, in test order, and the total equal to the sum of their penalties |
| Patterns.DetectPatterns | password-app/packages/core/src/index.ts:117-161 | empty gives nothing; otherwise a finding of a kind exactly when its test fires; the total is the sum, between 0 and 73 |
| Patterns.KindAtMostOnce | password-app/packages/core/src/index.ts:125-158 | no kind is reported twice |
| Patterns.KindPenaltyAtLeast | password-app/packages/core/src/index.ts:119-158 | a reported kind contributes its full penalty to the total |
| Patterns.CommonWordIff | password-app/packages/core/src/index.ts:145-153 | a commonWord finding is present exactly when the normalized password contains one of the nine words |
| Patterns.RepetitionExample | password-app/packages/core/src/index.test.ts:60-63 | "aaaa1111" is reported as a repetition |
| Patterns.LeetCommonWordExample | password-app/packages/core/src/index.test.ts:17-21 | "P@ssw0rd" is reported as a common word |
| Patterns.SequenceExample | password-app/packages/core/src/index.test.ts:11-15 | "123456" is reported as a sequence |
| Patterns.PassphraseHasNoCommonWord | password-app/packages/core/src/index.test.ts:23-27 | no dictionary word occurs in the normalized test passphrase |
| Entropy.RawEntropyAtLeastLength | password-app/packages/core/src/index.ts:169 | with at least 2 symbols, each character carries at least one bit |
| Entropy.RawEntropyAtMostFourPerCharacter | password-app/packages/core/src/index.ts:169 | with at most 16 symbols, at most four bits per character |
| Entropy.RawEntropyAtLeastSixPerCharacter | password-app/packages/core/src/index.ts:169 | with at least 64 symbols, at least six bits per character |
| Entropy.CalculateEntropy | password-app/packages/core/src/index.ts:163-184 | penalties: exactly base + max(raw − 15, 0) + (5 on a repetition) with a common word, the base alone with neither finding, at most base + 5 without a common word; effective is the larger of raw − penalties and 1 |
| Entropy.EffectiveAtMostRaw | password-app/packages/core/src/index.ts:182 | with a non-negative base and at least one raw bit, effective never exceeds raw |
| Entropy.CommonWordFloorsEntropy | password-app/packages/core/src/index.ts:172-182 | with a common word and a base of at least 25, exactly one bit remains |
| Entropy.ScoreFromEntropy | password-app/packages/core/src/index.ts:186-196 | each label exactly on its interval of the 28/36/60/80 thresholds; the score is 1.2·e rounded and clamped to [0, 100] |
| Entropy.ScoreMonotone | password-app/packages/core/src/index.ts:186-196 | more entropy never lowers the label or the score |
| Entropy.LabelTable | password-app/packages/core/src/index.test.ts:49-56 | the labels of 10, 30, 50, 70 and 90 bits |
| Suggestions.Select | password-app/packages/core/src/index.ts:249-281 | exactly the triggered members of a list; for a list without repeats, each once; for a list in push order, in push order |
| Suggestions.Candidates | password-app/packages/core/src/index.ts:249-281 | each suggestion is a candidate exactly when its trigger holds, at most once, in the order the source pushes them; the passphrase always |
| Suggestions.SortByImpact | password-app/packages/core/src/index.ts:283-284 | sorted by impact, highest first; a permutation; equal impacts keep their order (stability) |
| Suggestions.RankedTiesInPushOrder | password-app/packages/core/src/index.ts:249-285 | suggestions of equal impact are kept in push order: digit before diversity, symbols before dates, sequences before the passphrase |
| Suggestions.RankedMembers | password-app/packages/core/src/index.ts:283-285 | a suggestion is kept exactly when triggered, except the uppercase one when all nine are triggered |
| Suggestions.GenerateSuggestions | password-app/packages/core/src/index.ts:283-286 | at most eight lines, each the rendering of the ranked suggestion at its place |
| Suggestions.PassphraseAlwaysOffered | password-app/packages/core/src/index.ts:281-286 | the passphrase advice survives the cut |
| Analyzer.UniqueCharCount | password-app/packages/core/src/index.ts:82 | the number of distinct characters, at most the length, zero only for the empty password |
| Analyzer.DiversityRatio | password-app/packages/core/src/index.ts:83 | a share in [0, 1], zero exactly when no class or no character; times the length it gives the distinct count |
| Analyzer.AnalyzePassword | password-app/packages/core/src/index.ts:75-115 | the size is the size of the detected classes, the ratio the diversity of the distinct count, the penalties and effective entropy those of the entropy calculation on the detector's findings and charge, the label and score those of the effective entropy, the suggestions those ranked for the same input; effective ≥ 1, and exactly 1 with a common word; the two notes |
| Analyzer.CommonWordLeavesOneBit | password-app/packages/core/src/index.ts:85-86 | with the detector's own findings and charge, a common word leaves exactly one bit whatever the set size |
| Analyzer.EmptyPassword | password-app/packages/core/src/index.ts:81-86 | the empty password: size 0, no finding, 0 raw bits, 1 effective bit, lowest label, score 1 |
| Analyzer.NonemptyEffectiveAtMostRaw | password-app/packages/core/src/index.ts:81-86 | for a nonempty password, 1 ≤ effective ≤ raw |
| Analyzer.SequenceScoresLow | password-app/packages/core/src/index.test.ts:11-15 | "123456" shows a sequence and scores under 20 |
| Analyzer.LeetWordScoresLow | password-app/packages/core/src/index.test.ts:17-21 | "P@ssw0rd" shows a common word and keeps under 30 bits |
| Analyzer.FullSetWithoutCommonWord | password-app/packages/core/src/index.ts:169-194 | 32 characters over the 94-character set with no common word keep at least 114 bits: top label, score 100 |
| Analyzer.PassphraseScoresHigh | password-app/packages/core/src/index.test.ts:23-27 | the test passphrase scores above 60 with the top label |
| CrackTimes.Classify | password-app/packages/core/src/index.ts:219-234 | the branch taken: under one second, a few seconds, a rounded amount between 1 and 1000 in the unit whose range holds the duration, or thousands of years |
| CrackTimes.ClassifyMonotone | password-app/packages/core/src/index.ts:219-234 | a longer duration never lands in a smaller unit |
| CrackTimes.EstimateCrackTimes | password-app/packages/core/src/index.ts:198-217 | each scenario's time times its rate equals 2^max(e − 1, 0); the times are ordered fast ≤ medium ≤ online; each text is formatTime of its time |
| CrackTimes.LowEntropyIsInstant | password-app/packages/core/src/index.ts:198-220 | at most one bit gives "< 1 seconde" in all three scenarios |
| CommonFormat.Classify | password-app/packages/core/src/common.ts:33-54 | under one second; otherwise the largest unit reached with its rounded amount, or thousands of years past 5000 years; the last fallback is never taken |
| CommonFormat.FormatTime | password-app/packages/core/src/common.ts:33-54 | the text for under a second and for thousands of years; never "quelques secondes" |
| CommonFormat.FormatTimeLargestUnit | password-app/packages/core/src/common.ts:44-50 | from one second on: the amount and the unit word, with `s` appended exactly when the amount exceeds one |
| CommonFormat.FormatTimeTagged | password-app/packages/core/src/common.ts:33-54 | every text ends in "(estimation)" |
| CommonFormat.MonthPluralAsWritten | password-app/packages/core/src/common.ts:49-50 | two months read "2 moiss (estimation)", not the French plural |
| CommonFormat.FormatTimeCorrected | password-app/packages/core/src/common.ts:33-54 | the formatter with the French plural; same text as written under a second and past 5000 years |
| CommonFormat.PluralizeMatchesFrench | password-app/packages/core/src/common.ts:35-42 | appending `s` unless the word ends in `s` gives the French plural of every unit |
| CommonFormat.CorrectedLargestUnit | password-app/packages/core/src/common.ts:44-50 | corrected text: singular for one, French plural above; otherwise identical to the text as written |
| Randomness.SecureRandomIndices | password-app/packages/core/src/common.ts:4-18 | empty for max ≤ 0 or count ≤ 0; otherwise count values in [0, max), reading count words |
| Randomness.SecureShuffle | password-app/packages/core/src/common.ts:20-27 | same length and same multiset as the input; reads one word per position but the first |
| Randomness.ShufflePreservesMembers | password-app/packages/core/src/common.ts:20-27 | a value occurs in the shuffled copy exactly when it occurs in the input |
| Options.SelectedCategories | password-app/packages/core/src/generation.ts:28-31 | the selected classes in fixed order, each once, as many as the flags set |
| Options.OnePerPoolClasses | password-app/packages/core/src/index.ts:346-351 | one character per pool gives each selected class in order, all distinct |
| Options.PoolCharacterSelected | password-app/packages/core/src/index.ts:326-353 | a pool character belongs to a selected class |
| Options.Fill | password-app/packages/core/src/index.ts:353-359 | the buffer keeps its front, grows to the target with pool characters, and keeps no adjacent repeats when asked |
| Options.FillWithoutRejection | password-app/packages/core/src/generation.ts:75-82 | without noRepeats every word is used: one word per missing character, each the pool character it indexes |
| Options.PermutedCovers | password-app/packages/core/src/generation.ts:84 | covering every selected class survives a permutation |
| Options.PermutedSeeds | password-app/packages/core/src/generation.ts:32 | one character per selected class survives the shuffle of the seeds |
| Generation.ValidateOptions | password-app/packages/core/src/generation.ts:46-64 | the length error exactly out of [8, 64]; the category error exactly when in range and nothing selected; success otherwise; the third error never |
| Generation.BuildPoolContents | password-app/packages/core/src/generation.ts:10-24 | the filtered concatenation of the selected alphabets: exactly their characters, none ambiguous when excluded, nonempty when any is selected |
| Generation.RandomChar | password-app/packages/core/src/generation.ts:35-44 | a character of the filtered pool, the one the first word indexes |
| Generation.DrawSeedsMembers | password-app/packages/core/src/generation.ts:28-31 | the i-th seed comes from the filtered alphabet of the i-th selected class |
| Generation.PickRequiredCharacters | password-app/packages/core/src/generation.ts:26-33 | reads one word per class plus the shuffle's; the result is as long as the cut allows |
| Generation.SeedsOnePerCategory | password-app/packages/core/src/generation.ts:26-33 | when the length allows, exactly one character of each selected class, from its alphabet |
| Generation.GeneratePassword | password-app/packages/core/src/generation.ts:66-85 | the validation errors before any draw; otherwise the requested length, a permutation of the buffer |
| Generation.PreShuffleContents | password-app/packages/core/src/generation.ts:66-82 | the buffer holds pool characters; the picked seeds come first when required; no adjacent repeats with noRepeats |
| Generation.GeneratedContents | password-app/packages/core/src/generation.ts:66-85 | the password has the requested length, pool characters only, and every selected class when required |
| Generation.RequiredKept | password-app/packages/core/src/generation.ts:71-84 | the picked characters all appear in the password, with multiplicity |
| IndexGenerator.RequiredChars | password-app/packages/core/src/index.ts:346-351 | one character per pool, the one its word indexes |
| IndexGenerator.GeneratePassword | password-app/packages/core/src/index.ts:303-368 | errors for the length and for no category before any draw; otherwise the requested length, a permutation of the buffer |
| IndexGenerator.PreShuffleContents | password-app/packages/core/src/index.ts:335-359 | the buffer holds pool characters only, none ambiguous when excluded, one per selected class first when required, and no adjacent repeats with noRepeats |
| IndexGenerator.GeneratedContents | password-app/packages/core/src/index.ts:353-367 | the password has the length, pool characters only, none ambiguous when excluded, and every selected class when required |
| IndexGenerator.WordsNeeded | password-app/packages/core/src/index.ts:346-365 | without noRepeats a run succeeds exactly when 2·length − 1 words are available, and reads exactly those |
| Composition.AnalyzeAndEstimate | password-app/packages/core/src/index.ts:370-374 | the analysis, the crack times of its effective entropy, its suggestions; a common word gives "< 1 seconde" everywhere |
| Composition.GenerateWithAnalysis | password-app/packages/core/src/index.ts:376-380 | fails exactly when the generator fails, with its error; otherwise the generated password with its analysis |
| Composition.GeneratedCategories | password-app/packages/core/src/index.test.ts:31-46 | the analysis of a generated password finds only selected classes, and all of them when each is required |
| Composition.FullSelectionEntropy | password-app/packages/core/src/index.test.ts:31-46 | all four classes required: the size is 94 and raw entropy is at least 6 bits per character |

## Left out

- The random source. `getCrypto`, `globalThis.crypto` and `getRandomValues` are foreign calls. They become a finite stream of 32-bit words. Modulo bias is kept as written, but uniformity is not stated.
- Running out of words. A run that exhausts the stream ends in `RandomFailure`. In common.ts that stands for the "unavailable" error of `secureRandomIndices`. In index.ts it is only a consequence of the finite stream.
- The noRepeats rejection loop. Each retry reads a word, so the loop ends when the stream does. Termination of the real loop over an endless source is not modelled.
- `Math.log2` and `Math.pow`. They are parameters with only the laws `IsLog2` and `IsPow2`. The `log2` helper of common.ts is not used by the core and is not modelled.
- Floating point. Reals are exact. The non-finite case of common.ts `formatTime` has no real counterpart.
- Suggestions.LowDiversity: the test `unique < length * 0.7` is decided in exact arithmetic, as 10·unique < 7·length. The float product `length * 0.7` is not always exact, but the comparison comes out the same for every length a JavaScript string can have. The double nearest 0.7 lies just below 0.7, so rounding never lifts the product above a whole 7·length/10. Otherwise 7·length/10 is at least 0.1 away from any whole count, far more than the rounding error below 2^30. Floating point itself is not modelled.
- Text.LowerChar: lower-casing covers ASCII letters only. Non-ASCII case mappings of `toLowerCase` are not modelled.
- UTF-16. Strings are sequences of Unicode characters, not UTF-16 code units, so `length` differs for characters outside the Basic Multilingual Plane.
- The length option. It is an integer; fractional lengths are not modelled.
- Generation.PickRequiredCharacters: the `pool` parameter of `pickRequiredCharacters` is unused in the source and is omitted.
- Generation.RandomChar: it requires a nonempty filtered alphabet. Every caller meets this, since every alphabet keeps a character after filtering. The empty-array case of `secureRandomIndices` that would then apply is not reached.
- Shuffled output. No adjacent repeat is stated only for the buffer before the shuffle, not for the shuffled output. The shuffle may bring equal characters together.
- The HTTP API, the web client and the type declarations of types.ts are outside the core.

## Findings

| source | as written | input that shows it | evidently intended | confidence | as-written member | corrected member |
|---|---|---|---|---|---|---|
| password-app/packages/core/src/common.ts:49-50 | the plural `s` is appended to every unit word, including `mois` | 5259600 seconds, which reads "2 moiss (estimation)" | the French plural, where `mois` is invariable: "2 mois (estimation)" | not executed | CommonFormat.MonthPluralAsWritten | CommonFormat.FormatTimeCorrected |
