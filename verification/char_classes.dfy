/**
  Which character classes a password uses, and the character-set size the
  analyzer derives from them (the start of `analyzePassword` in index.ts).
  A "symbol" is any character that is not an ASCII letter or digit.
 */
module CharClasses {
  import opened Text
  import opened Alphabets

  /** `AnalysisResult['categories']`. */
  datatype Categories = Categories(hasLowercase: bool, hasUppercase: bool, hasDigits: bool, hasSymbols: bool)

  /** The four `test` calls: a class is present when some character of the password is in it. */
  function DetectCategories(p: string): (c: Categories)
    ensures c.hasLowercase <==> exists i | 0 <= i < |p| :: IsAsciiLower(p[i])
    ensures c.hasUppercase <==> exists i | 0 <= i < |p| :: IsAsciiUpper(p[i])
    ensures c.hasDigits <==> exists i | 0 <= i < |p| :: IsAsciiDigit(p[i])
    ensures c.hasSymbols <==> exists i | 0 <= i < |p| :: !IsAlphanumeric(p[i])
  {
    if |p| == 0 then Categories(false, false, false, false)
    else
      var rest := DetectCategories(p[1..]);
      assert forall i :: 1 <= i < |p| ==> p[i] == p[1..][i - 1];
      var ch := p[0];
      Categories(
        IsAsciiLower(ch) || rest.hasLowercase,
        IsAsciiUpper(ch) || rest.hasUppercase,
        IsAsciiDigit(ch) || rest.hasDigits,
        !IsAlphanumeric(ch) || rest.hasSymbols)
  }

  /** The sum of the sizes of the classes present: 26, 26, 10 and the 32 symbols of index.ts. */
  function CharacterSetSize(c: Categories): int {
    (if c.hasLowercase then 26 else 0)
    + (if c.hasUppercase then 26 else 0)
    + (if c.hasDigits then 10 else 0)
    + (if c.hasSymbols then |IndexSymbols| else 0)
  }

  predicate AnyClass(c: Categories) {
    c.hasLowercase || c.hasUppercase || c.hasDigits || c.hasSymbols
  }

  /** A nonempty password uses at least one class, since every character falls in one. */
  lemma NonemptyHasClass(p: string)
    ensures AnyClass(DetectCategories(p)) <==> |p| > 0
  {
    if |p| > 0 {
      if IsAsciiLower(p[0]) {
        assert DetectCategories(p).hasLowercase;
      } else if IsAsciiUpper(p[0]) {
        assert DetectCategories(p).hasUppercase;
      } else if IsAsciiDigit(p[0]) {
        assert DetectCategories(p).hasDigits;
      } else {
        assert DetectCategories(p).hasSymbols;
      }
    }
  }

  /** The size is at most 26 + 26 + 10 + 32, and zero exactly when no class is present. */
  lemma CategorySizeRange(c: Categories)
    ensures 0 <= CharacterSetSize(c) <= 94
    ensures CharacterSetSize(c) == 0 <==> !AnyClass(c)
    ensures AnyClass(c) ==> CharacterSetSize(c) >= 10
  {
    AlphabetSizes();
  }

  /**
    The character-set size of a password lies in `[0, 94]` and is zero exactly
    for the empty password.
   */
  lemma CharacterSetSizeRange(p: string)
    ensures 0 <= CharacterSetSize(DetectCategories(p)) <= 94
    ensures CharacterSetSize(DetectCategories(p)) == 0 <==> |p| == 0
    ensures |p| > 0 ==> CharacterSetSize(DetectCategories(p)) >= 10
  {
    NonemptyHasClass(p);
    CategorySizeRange(DetectCategories(p));
  }
}
