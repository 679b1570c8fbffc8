/**
  The character alphabets of the core and the ambiguous-character filter.
  Both generators use the same letters and digits; their symbol alphabets differ
  (32 characters in index.ts, 30 in generation.ts), and the analyzer counts the
  32 of index.ts as the size of the symbol class.
 */
module Alphabets {
  import opened Text

  const Lowercase: string := "abcdefghijklmnopqrstuvwxyz"
  const Uppercase: string := "ABCDEFGHIJKLMNOPQRSTUVWXYZ"
  const Digits: string := "0123456789"

  /** `symbols` of index.ts. */
  const IndexSymbols: string := "!@#$%^&*()-_=+[]{};:'\"\\|,.<>/?`~"

  /** `SYMBOLS` of generation.ts. */
  const GenerationSymbols: string := "!@#$%^&*()-_=+[]{};:,.?/\\|`~<>"

  /** Characters easily confused with one another. */
  const Ambiguous: string := "O0l1I"

  datatype Category = Lower | Upper | Digit | Symbol

  /** The selection order both generators follow. */
  const CategoryOrder: seq<Category> := [Lower, Upper, Digit, Symbol]

  /** The class a character belongs to, as the analyzer's tests decide it. */
  function ClassOf(c: char): Category {
    if IsAsciiLower(c) then Lower
    else if IsAsciiUpper(c) then Upper
    else if IsAsciiDigit(c) then Digit
    else Symbol
  }

  lemma AlphabetSizes()
    ensures |Lowercase| == 26 && |Uppercase| == 26 && |Digits| == 10
    ensures |IndexSymbols| == 32 && |GenerationSymbols| == 30
  {
  }

  /** The letter and digit alphabets are exactly the ASCII ranges of their classes. */
  lemma LowercaseClass()
    ensures |Lowercase| == 26
    ensures forall c :: c in Lowercase <==> IsAsciiLower(c)
    ensures HasUnambiguous(Lowercase)
  {
    assert 'a' in Lowercase && 'a' !in Ambiguous;
  }

  lemma UppercaseClass()
    ensures |Uppercase| == 26
    ensures forall c :: c in Uppercase <==> IsAsciiUpper(c)
    ensures HasUnambiguous(Uppercase)
  {
    assert 'A' in Uppercase && 'A' !in Ambiguous;
  }

  lemma DigitsClass()
    ensures |Digits| == 10
    ensures forall c :: c in Digits <==> IsAsciiDigit(c)
    ensures HasUnambiguous(Digits)
  {
    assert '2' in Digits && '2' !in Ambiguous;
  }

  /** Every ambiguous character is a letter or a digit. */
  lemma AmbiguousAlphanumeric()
    ensures forall c :: c in Ambiguous ==> IsAlphanumeric(c)
  {
  }

  /** No position of either symbol alphabet holds a letter or a digit (checked a block at a time). */
  lemma SymbolPositions()
    ensures |IndexSymbols| == 32 && |GenerationSymbols| == 30
    ensures forall i :: 0 <= i < |IndexSymbols| ==> !IsAlphanumeric(IndexSymbols[i])
    ensures forall i :: 0 <= i < |GenerationSymbols| ==> !IsAlphanumeric(GenerationSymbols[i])
  {
    forall i | 0 <= i < 32
      ensures !IsAlphanumeric(IndexSymbols[i])
    {
      if i < 8 {} else if i < 16 {} else if i < 24 {} else {}
    }
    forall i | 0 <= i < 30
      ensures !IsAlphanumeric(GenerationSymbols[i])
    {
      if i < 8 {} else if i < 16 {} else if i < 24 {} else {}
    }
  }

  /** Neither symbol alphabet holds a letter or a digit. */
  lemma IndexSymbolsClass()
    ensures |IndexSymbols| == 32
    ensures forall c :: c in IndexSymbols ==> !IsAlphanumeric(c)
  {
    SymbolPositions();
    forall c | c in IndexSymbols
      ensures !IsAlphanumeric(c)
    {
      var i :| 0 <= i < |IndexSymbols| && IndexSymbols[i] == c;
    }
  }

  lemma GenerationSymbolsClass()
    ensures |GenerationSymbols| == 30
    ensures forall c :: c in GenerationSymbols ==> !IsAlphanumeric(c)
  {
    SymbolPositions();
    forall c | c in GenerationSymbols
      ensures !IsAlphanumeric(c)
    {
      var i :| 0 <= i < |GenerationSymbols| && GenerationSymbols[i] == c;
    }
  }

  /** The characters of `s` outside the ambiguous set, in order. */
  function RemoveAmbiguous(s: string): (r: string)
    ensures |r| <= |s|
    ensures forall c :: c in r <==> c in s && c !in Ambiguous
  {
    if |s| == 0 then ""
    else if s[0] in Ambiguous then RemoveAmbiguous(s[1..])
    else [s[0]] + RemoveAmbiguous(s[1..])
  }

  lemma ConcatAssoc(x: string, y: string, z: string)
    ensures x + (y + z) == (x + y) + z
  {
  }

  /** Filtering a concatenation is concatenating the filtered parts. */
  lemma {:induction false} RemoveAmbiguousConcat(a: string, b: string)
    ensures RemoveAmbiguous(a + b) == RemoveAmbiguous(a) + RemoveAmbiguous(b)
    decreases |a|
  {
    if |a| > 0 {
      var t := a[1..];
      var x := if a[0] in Ambiguous then "" else [a[0]];
      assert (a + b)[0] == a[0] && (a + b)[1..] == t + b;
      assert RemoveAmbiguous(a + b) == x + RemoveAmbiguous(t + b);
      assert RemoveAmbiguous(a) == x + RemoveAmbiguous(t);
      RemoveAmbiguousConcat(t, b);
      ConcatAssoc(x, RemoveAmbiguous(t), RemoveAmbiguous(b));
    } else {
      assert a + b == b;
    }
  }

  /** The filter keeps every unambiguous character as often as it occurs, and no ambiguous one. */
  lemma {:induction false} RemoveAmbiguousCounts(s: string, c: char)
    ensures multiset(RemoveAmbiguous(s))[c] == if c in Ambiguous then 0 else multiset(s)[c]
    decreases |s|
  {
    if |s| > 0 {
      RemoveAmbiguousCounts(s[1..], c);
      assert s == [s[0]] + s[1..];
    }
  }

  /** A string without ambiguous characters passes the filter unchanged, order included. */
  lemma {:induction false} RemoveAmbiguousKeepsClean(s: string)
    requires forall i :: 0 <= i < |s| ==> s[i] !in Ambiguous
    ensures RemoveAmbiguous(s) == s
    decreases |s|
  {
    if |s| > 0 {
      RemoveAmbiguousKeepsClean(s[1..]);
      assert [s[0]] + s[1..] == s;
    }
  }

  function FilterIf(s: string, excludeAmbiguous: bool): string {
    if excludeAmbiguous then RemoveAmbiguous(s) else s
  }

  /** The four alphabets a generator draws from. */
  datatype Charsets = Charsets(lower: string, upper: string, digits: string, symbols: string)

  /** The alphabets of index.ts: the letters, the digits and its 32 symbols. */
  const IndexCharsets: Charsets := Charsets(Lowercase, Uppercase, Digits, IndexSymbols)

  /** The alphabets of generation.ts: the same letters and digits, and its 30 symbols. */
  const GenerationCharsets: Charsets := Charsets(Lowercase, Uppercase, Digits, GenerationSymbols)

  function Alphabet(cat: Category, cs: Charsets): string {
    match cat
    case Lower => cs.lower
    case Upper => cs.upper
    case Digit => cs.digits
    case Symbol => cs.symbols
  }

  /**
    What the generators rely on about their alphabets: each holds only
    characters of its own category, and keeps at least one character once the
    ambiguous ones are removed.
   */
  predicate WellFormed(cs: Charsets) {
    forall cat :: (forall c :: c in Alphabet(cat, cs) ==> ClassOf(c) == cat) && HasUnambiguous(Alphabet(cat, cs))
  }

  predicate HasUnambiguous(s: string) {
    exists c :: c in s && c !in Ambiguous
  }

  /** A symbol alphabet holds symbols only, and its first character is not ambiguous. */
  lemma SymbolsWellFormed(symbols: string)
    requires forall c :: c in symbols ==> !IsAlphanumeric(c)
    requires |symbols| > 0
    ensures forall c :: c in symbols ==> ClassOf(c) == Symbol
    ensures HasUnambiguous(symbols)
  {
    AmbiguousAlphanumeric();
    assert symbols[0] in symbols && symbols[0] !in Ambiguous;
  }

  /** The letters and digits, shared by both generators. */
  lemma LettersAndDigitsWellFormed()
    ensures forall c :: c in Lowercase ==> ClassOf(c) == Lower
    ensures forall c :: c in Uppercase ==> ClassOf(c) == Upper
    ensures forall c :: c in Digits ==> ClassOf(c) == Digit
    ensures HasUnambiguous(Lowercase) && HasUnambiguous(Uppercase) && HasUnambiguous(Digits)
  {
    LowercaseClass();
    UppercaseClass();
    DigitsClass();
  }

  lemma IndexCharsetsWellFormed()
    ensures WellFormed(IndexCharsets)
  {
    LettersAndDigitsWellFormed();
    IndexSymbolsClass();
    SymbolsWellFormed(IndexSymbols);
  }

  lemma GenerationCharsetsWellFormed()
    ensures WellFormed(GenerationCharsets)
  {
    LettersAndDigitsWellFormed();
    GenerationSymbolsClass();
    SymbolsWellFormed(GenerationSymbols);
  }

  /** Every character of a category's alphabet belongs to that category. */
  lemma AlphabetClass(cat: Category, cs: Charsets, c: char)
    requires WellFormed(cs)
    requires c in Alphabet(cat, cs)
    ensures ClassOf(c) == cat
  {
  }

  /** Filtering never empties an alphabet. */
  lemma FilteredAlphabetNonempty(cat: Category, cs: Charsets, excludeAmbiguous: bool)
    requires WellFormed(cs)
    ensures |FilterIf(Alphabet(cat, cs), excludeAmbiguous)| > 0
  {
    var c :| c in Alphabet(cat, cs) && c !in Ambiguous;
    assert c in FilterIf(Alphabet(cat, cs), excludeAmbiguous);
  }
}
