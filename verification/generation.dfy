/**
  The generator of generation.ts: `validateOptions`, `buildPool`, `randomChar`,
  `pickRequiredCharacters` and `generatePassword`. Unlike index.ts it validates
  in a separate step, filters the joined pool rather than each alphabet, and
  shuffles the seeds before the fill.
 */
module Generation {
  import opened Results
  import opened Text
  import opened Alphabets
  import opened Randomness
  import opened Options

  function ErrorMessage(e: GenError): string {
    match e
    case InvalidLength => "La longueur doit être comprise entre 8 et 64 caractères."
    case NoCategory => "Au moins une catégorie de caractères doit être sélectionnée."
    case InsufficientLength => "La longueur est insuffisante pour couvrir chaque catégorie demandée."
    case RandomFailure => UnavailableMessage
  }

  /**
    `validateOptions`: the length range, then at least one category, then, when
    each type is required, enough length for one character of each. The third
    check can never fail once the first has passed, since at most four
    categories exist and the length is at least eight.
   */
  function ValidateOptions(o: GeneratorOptions): (r: Result<GeneratorOptions, GenError>)
    ensures r == Failure(InvalidLength) <==> o.length < MinLength || o.length > MaxLength
    ensures r == Failure(NoCategory) <==> MinLength <= o.length <= MaxLength && !AnySelected(o)
    ensures r.Success? <==> MinLength <= o.length <= MaxLength && AnySelected(o)
    ensures r.Success? ==> r.value == o
    ensures r != Failure(InsufficientLength)
  {
    if o.length < MinLength || o.length > MaxLength then Failure(InvalidLength)
    else if !AnySelected(o) then Failure(NoCategory)
    else if o.requireEachSelectedType && SelectedCount(o) > o.length then Failure(InsufficientLength)
    else Success(o)
  }

  /** The enabled alphabets appended in the fixed order, before any filtering. */
  function RawPool(o: GeneratorOptions, cs: Charsets): string {
    (if o.includeLowercase then cs.lower else "")
    + (if o.includeUppercase then cs.upper else "")
    + (if o.includeDigits then cs.digits else "")
    + (if o.includeSymbols then cs.symbols else "")
  }

  /** The joined alphabets, filtered as a whole when ambiguous characters are excluded. */
  function PoolOf(o: GeneratorOptions, cs: Charsets): string {
    FilterIf(RawPool(o, cs), o.excludeAmbiguous)
  }

  /** `buildPool`, over the alphabets of generation.ts. */
  function BuildPool(o: GeneratorOptions): string {
    PoolOf(o, GenerationCharsets)
  }

  /** The enabled alphabets as a list, one entry per selected category. */
  function Unfiltered(o: GeneratorOptions, cs: Charsets): (ps: seq<string>)
    ensures |ps| == |SelectedCategories(o)|
    ensures forall i :: 0 <= i < |ps| ==> ps[i] == Alphabet(SelectedCategories(o)[i], cs)
  {
    (if o.includeLowercase then [cs.lower] else [])
    + (if o.includeUppercase then [cs.upper] else [])
    + (if o.includeDigits then [cs.digits] else [])
    + (if o.includeSymbols then [cs.symbols] else [])
  }

  lemma JoinCons(p: string, ps: seq<string>)
    ensures Join([p] + ps) == p + Join(ps)
  {
    assert ([p] + ps)[1..] == ps;
  }

  lemma {:induction false} JoinAppend(ps: seq<string>, qs: seq<string>)
    ensures Join(ps + qs) == Join(ps) + Join(qs)
    decreases |ps|
  {
    if |ps| == 0 {
      assert ps + qs == qs;
    } else {
      assert (ps + qs)[1..] == ps[1..] + qs;
      JoinAppend(ps[1..], qs);
    }
  }

  lemma JoinSingle(p: string)
    ensures Join([p]) == p
  {
    JoinCons(p, []);
  }

  lemma JoinOptional(b: bool, p: string)
    ensures Join(if b then [p] else []) == if b then p else ""
  {
    if b {
      JoinSingle(p);
    }
  }

  /** Appending the enabled alphabets is joining them. */
  lemma RawPoolJoins(o: GeneratorOptions, cs: Charsets)
    ensures RawPool(o, cs) == Join(Unfiltered(o, cs))
  {
    var a := if o.includeLowercase then [cs.lower] else [];
    var b := if o.includeUppercase then [cs.upper] else [];
    var c := if o.includeDigits then [cs.digits] else [];
    var d := if o.includeSymbols then [cs.symbols] else [];
    JoinAppend(a + b + c, d);
    JoinAppend(a + b, c);
    JoinAppend(a, b);
    JoinOptional(o.includeLowercase, cs.lower);
    JoinOptional(o.includeUppercase, cs.upper);
    JoinOptional(o.includeDigits, cs.digits);
    JoinOptional(o.includeSymbols, cs.symbols);
  }

  function MapRemoveAmbiguous(ps: seq<string>): (qs: seq<string>)
    ensures |qs| == |ps| && forall i :: 0 <= i < |ps| ==> qs[i] == RemoveAmbiguous(ps[i])
  {
    seq(|ps|, i requires 0 <= i < |ps| => RemoveAmbiguous(ps[i]))
  }

  /** Filtering a join is joining the filtered parts. */
  lemma {:induction false} FilterJoin(ps: seq<string>)
    ensures RemoveAmbiguous(Join(ps)) == Join(MapRemoveAmbiguous(ps))
    decreases |ps|
  {
    if |ps| > 0 {
      FilterJoin(ps[1..]);
      RemoveAmbiguousConcat(ps[0], Join(ps[1..]));
      assert MapRemoveAmbiguous(ps) == [RemoveAmbiguous(ps[0])] + MapRemoveAmbiguous(ps[1..]);
      JoinCons(RemoveAmbiguous(ps[0]), MapRemoveAmbiguous(ps[1..]));
    }
  }

  /**
    The pool is the in-order join of the per-category pools, each filtered
    when ambiguous characters are excluded: filtering the whole is filtering
    each part.
   */
  lemma PoolJoinsPools(o: GeneratorOptions, cs: Charsets)
    ensures PoolOf(o, cs) == Join(Pools(o, cs))
  {
    RawPoolJoins(o, cs);
    var u := Unfiltered(o, cs);
    if o.excludeAmbiguous {
      FilterJoin(u);
      assert MapRemoveAmbiguous(u) == Pools(o, cs);
    } else {
      assert u == Pools(o, cs);
    }
  }

  /** A character is in the pool exactly when it is in the filtered alphabet of an enabled category. */
  predicate InSelectedAlphabet(o: GeneratorOptions, cs: Charsets, c: char) {
    exists cat :: Selected(o, cat) && c in FilterIf(Alphabet(cat, cs), o.excludeAmbiguous)
  }

  /**
    What the pool contains: exactly the characters of the enabled alphabets,
    less the ambiguous ones when excluded.
   */
  lemma PoolMembers(o: GeneratorOptions, cs: Charsets)
    ensures forall c :: c in PoolOf(o, cs) <==> InSelectedAlphabet(o, cs, c)
    ensures o.excludeAmbiguous ==> forall c :: c in PoolOf(o, cs) ==> c !in Ambiguous
  {
    PoolJoinsPools(o, cs);
    var cats := SelectedCategories(o);
    var ps := Pools(o, cs);
    forall c | c in PoolOf(o, cs)
      ensures InSelectedAlphabet(o, cs, c)
    {
      var k :| 0 <= k < |ps| && c in ps[k];
      assert Selected(o, cats[k]);
    }
    forall c | InSelectedAlphabet(o, cs, c)
      ensures c in PoolOf(o, cs)
    {
      var cat :| Selected(o, cat) && c in FilterIf(Alphabet(cat, cs), o.excludeAmbiguous);
      var k :| 0 <= k < |cats| && cats[k] == cat;
      assert c in ps[k];
    }
  }

  /** The pool is nonempty as soon as one category is enabled. */
  lemma PoolNonempty(o: GeneratorOptions, cs: Charsets)
    requires WellFormed(cs)
    ensures AnySelected(o) ==> |PoolOf(o, cs)| > 0
  {
    if AnySelected(o) {
      PoolJoinsPools(o, cs);
      PoolsNonempty(o, cs);
      var ps := Pools(o, cs);
      assert ps[0][0] in Join(ps);
    }
  }

  lemma PoolContents(o: GeneratorOptions, cs: Charsets)
    requires WellFormed(cs)
    ensures forall c :: c in PoolOf(o, cs) <==> InSelectedAlphabet(o, cs, c)
    ensures o.excludeAmbiguous ==> forall c :: c in PoolOf(o, cs) ==> c !in Ambiguous
    ensures AnySelected(o) ==> |PoolOf(o, cs)| > 0
  {
    PoolMembers(o, cs);
    PoolNonempty(o, cs);
  }

  /**
    `buildPool` is the in-order join of the selected alphabets of generation.ts;
    it holds exactly their characters, less the ambiguous ones when excluded,
    and is nonempty as soon as one category is enabled.
   */
  lemma BuildPoolContents(o: GeneratorOptions)
    ensures BuildPool(o) == Join(Pools(o, GenerationCharsets))
    ensures forall c :: c in BuildPool(o) <==> InSelectedAlphabet(o, GenerationCharsets, c)
    ensures o.excludeAmbiguous ==> forall c :: c in BuildPool(o) ==> c !in Ambiguous
    ensures AnySelected(o) ==> |BuildPool(o)| > 0
  {
    GenerationCharsetsWellFormed();
    PoolJoinsPools(o, GenerationCharsets);
    PoolContents(o, GenerationCharsets);
  }

  /**
    `randomChar`: one drawn character of the alphabet, filtered first when
    ambiguous characters are excluded.
   */
  function RandomChar(pool: string, excludeAmbiguous: bool, src: Stream): (r: Result<Drawn<char>, RandomError>)
    requires |FilterIf(pool, excludeAmbiguous)| > 0
    ensures r.Success? <==> |src| >= 1
    ensures r.Success? ==>
              && r.value.value in FilterIf(pool, excludeAmbiguous)
              && r.value.value == FilterIf(pool, excludeAmbiguous)[src[0] % |FilterIf(pool, excludeAmbiguous)|]
              && r.value.rest == src[1..]
  {
    var filtered := FilterIf(pool, excludeAmbiguous);
    var drawn :- SecureRandomIndices(|filtered|, 1, src);
    Success(Drawn(filtered[drawn.value[0]], drawn.rest))
  }

  /** One `randomChar` per category, in the given order. */
  function DrawSeeds(cats: seq<Category>, cs: Charsets, excludeAmbiguous: bool, src: Stream): (r: Result<Drawn<string>, RandomError>)
    requires WellFormed(cs)
    ensures r.Success? <==> |src| >= |cats|
    ensures r.Success? ==> |r.value.value| == |cats| && r.value.rest == src[|cats|..]
  {
    if |cats| == 0 then Success(Drawn("", src))
    else
      FilteredAlphabetNonempty(cats[0], cs, excludeAmbiguous);
      match RandomChar(Alphabet(cats[0], cs), excludeAmbiguous, src)
      case Failure(e) => Failure(e)
      case Success(Drawn(c, rest)) =>
        match DrawSeeds(cats[1..], cs, excludeAmbiguous, rest)
        case Failure(e) => Failure(e)
        case Success(Drawn(tail, rest2)) => Success(Drawn([c] + tail, rest2))
  }

  /** Each seed comes from the filtered alphabet of its category. */
  lemma {:induction false} DrawSeedsMembers(cats: seq<Category>, cs: Charsets, excludeAmbiguous: bool, src: Stream)
    requires WellFormed(cs)
    requires DrawSeeds(cats, cs, excludeAmbiguous, src).Success?
    ensures var d := DrawSeeds(cats, cs, excludeAmbiguous, src).value.value;
            forall i :: 0 <= i < |cats| ==> d[i] in FilterIf(Alphabet(cats[i], cs), excludeAmbiguous)
  {
    if |cats| > 0 {
      FilteredAlphabetNonempty(cats[0], cs, excludeAmbiguous);
      var first := RandomChar(Alphabet(cats[0], cs), excludeAmbiguous, src).value;
      DrawSeedsMembers(cats[1..], cs, excludeAmbiguous, first.rest);
      var d := DrawSeeds(cats, cs, excludeAmbiguous, src).value.value;
      var tail := DrawSeeds(cats[1..], cs, excludeAmbiguous, first.rest).value.value;
      assert d == [first.value] + tail;
      forall i | 1 <= i < |cats|
        ensures d[i] in FilterIf(Alphabet(cats[i], cs), excludeAmbiguous)
      {
        assert d[i] == tail[i - 1] && cats[i] == cats[1..][i - 1];
      }
    }
  }

  /** Where `slice(0, end)` stops in a sequence of length `n`: a negative end counts from the back. */
  function SliceEnd(n: nat, end: int): (k: nat)
    ensures k <= n
    ensures 0 <= end <= n ==> k == end
  {
    if end < 0 then Max(n + end, 0) else Min(end, n)
  }

  /** The first `length` characters, or all of them when there are fewer. */
  function Cut(s: string, length: int): (r: string)
    ensures |r| == SliceEnd(|s|, Min(|s|, length))
    ensures length >= |s| ==> r == s
    ensures r == s[..|r|]
  {
    s[..SliceEnd(|s|, Min(|s|, length))]
  }

  /** How many words `pickRequiredCharacters` reads: one per seed and one per shuffle step. */
  function SeedWords(o: GeneratorOptions): nat {
    SelectedCount(o) + Max(SelectedCount(o) - 1, 0)
  }

  /**
    `pickRequiredCharacters`: one character of each selected category, shuffled,
    then cut to the password length. The symbol alphabet is a parameter so that
    the proofs need not look inside it; `PickRequiredCharacters` passes the
    alphabet of generation.ts.
   */
  function PickFrom(o: GeneratorOptions, cs: Charsets, src: Stream): (r: Result<Drawn<string>, RandomError>)
    requires WellFormed(cs)
    ensures r.Success? <==> |src| >= SeedWords(o)
    ensures r.Success? ==> |r.value.value| == SliceEnd(SelectedCount(o), Min(SelectedCount(o), o.length))
    ensures r.Success? ==> r.value.rest == src[SeedWords(o)..]
  {
    var cats := SelectedCategories(o);
    match DrawSeeds(cats, cs, o.excludeAmbiguous, src)
    case Failure(e) => Failure(e)
    case Success(seeds) =>
      var r := ShuffleAndCut(seeds, o.length);
      if r.Success? then
        DropTwice(src, |cats|, Max(|cats| - 1, 0));
        r
      else r
  }

  /** The second half of `pickRequiredCharacters`: shuffle the drawn seeds, then cut them to the length. */
  function ShuffleAndCut(seeds: Drawn<string>, length: int): (r: Result<Drawn<string>, RandomError>)
    ensures r.Success? <==> |seeds.rest| >= Max(|seeds.value| - 1, 0)
    ensures r.Success? ==> |r.value.value| == SliceEnd(|seeds.value|, Min(|seeds.value|, length))
    ensures r.Success? ==> r.value.rest == seeds.rest[Max(|seeds.value| - 1, 0)..]
    ensures r.Success? && length >= |seeds.value| ==> multiset(r.value.value) == multiset(seeds.value)
  {
    match SecureShuffle(seeds.value, seeds.rest)
    case Failure(e) => Failure(e)
    case Success(shuffled) => Success(Drawn(Cut(shuffled.value, length), shuffled.rest))
  }

  /** The source's `pool` argument is unused by `pickRequiredCharacters` and is not modelled. */
  function PickRequiredCharacters(o: GeneratorOptions, src: Stream): (r: Result<Drawn<string>, RandomError>)
    ensures r.Success? <==> |src| >= SeedWords(o)
    ensures r.Success? ==> |r.value.value| == SliceEnd(SelectedCount(o), Min(SelectedCount(o), o.length))
    ensures r.Success? ==> r.value.rest == src[SeedWords(o)..]
  {
    GenerationCharsetsWellFormed();
    PickFrom(o, GenerationCharsets, src)
  }

  /** With room for all of them, the picked seeds are the drawn seeds reordered. */
  lemma PickFromPermutes(o: GeneratorOptions, cs: Charsets, src: Stream)
    requires WellFormed(cs)
    requires o.length >= SelectedCount(o)
    requires PickFrom(o, cs, src).Success?
    ensures DrawSeeds(SelectedCategories(o), cs, o.excludeAmbiguous, src).Success?
    ensures var d := DrawSeeds(SelectedCategories(o), cs, o.excludeAmbiguous, src).value.value;
            multiset(PickFrom(o, cs, src).value.value) == multiset(d)
  {
  }

  /**
    When the length leaves room for them, the seeds are one character per
    selected category: each of a selected category, from that category's
    filtered alphabet, no two of the same category, and every selected
    category present.
   */
  lemma PickFromOnePerCategory(o: GeneratorOptions, cs: Charsets, src: Stream)
    requires WellFormed(cs)
    requires o.length >= SelectedCount(o)
    requires PickFrom(o, cs, src).Success?
    ensures OnePerCategory(o, cs, PickFrom(o, cs, src).value.value)
  {
    PickFromPermutes(o, cs, src);
    DrawSeedsMembers(SelectedCategories(o), cs, o.excludeAmbiguous, src);
    var d := DrawSeeds(SelectedCategories(o), cs, o.excludeAmbiguous, src).value.value;
    DrawnOnePerCategory(o, cs, d);
    PermutedSeeds(o, cs, d, PickFrom(o, cs, src).value.value);
  }

  /** `PickFromOnePerCategory` for the alphabets of generation.ts. */
  lemma SeedsOnePerCategory(o: GeneratorOptions, src: Stream)
    requires o.length >= SelectedCount(o)
    requires PickRequiredCharacters(o, src).Success?
    ensures OnePerCategory(o, GenerationCharsets, PickRequiredCharacters(o, src).value.value)
  {
    GenerationCharsetsWellFormed();
    PickFromOnePerCategory(o, GenerationCharsets, src);
  }

  /** How many words the seeds take: none unless each type is required. */
  function SeedCost(o: GeneratorOptions): nat {
    if o.requireEachSelectedType then SeedWords(o) else 0
  }

  /** The seeds `generatePassword` starts from: the picked characters when each type is required. */
  function SeedsOf(o: GeneratorOptions, cs: Charsets, src: Stream): (r: Result<Drawn<string>, RandomError>)
    requires WellFormed(cs)
    ensures r.Success? <==> |src| >= SeedCost(o)
    ensures r.Success? ==> r.value.rest == src[SeedCost(o)..]
    ensures r.Success? ==> |r.value.value| <= SelectedCount(o)
  {
    if o.requireEachSelectedType then PickFrom(o, cs, src) else Success(Drawn("", src))
  }

  /**
    The buffer of `generatePassword` before its final shuffle: validate, seed,
    fill from the pool.
   */
  function Prepare(o: GeneratorOptions, cs: Charsets, src: Stream): (r: Result<Drawn<string>, GenError>)
    requires WellFormed(cs)
    ensures o.length < MinLength || o.length > MaxLength ==> r == Failure(InvalidLength)
    ensures MinLength <= o.length <= MaxLength && !AnySelected(o) ==> r == Failure(NoCategory)
    ensures ValidateOptions(o).Success? ==> r.Success? || r == Failure(RandomFailure)
    ensures r.Success? ==> ValidateOptions(o).Success? && |r.value.value| == o.length
  {
    var _ :- ValidateOptions(o);
    PoolContents(o, cs);
    var seeds :- Lift(SeedsOf(o, cs, src));
    Lift(Fill(seeds.value, o.length, PoolOf(o, cs), o.noRepeats, seeds.rest))
  }

  function PreShuffle(o: GeneratorOptions, src: Stream): (r: Result<Drawn<string>, GenError>)
    ensures o.length < MinLength || o.length > MaxLength ==> r == Failure(InvalidLength)
    ensures MinLength <= o.length <= MaxLength && !AnySelected(o) ==> r == Failure(NoCategory)
    ensures ValidateOptions(o).Success? ==> r.Success? || r == Failure(RandomFailure)
    ensures r.Success? ==> ValidateOptions(o).Success? && |r.value.value| == o.length
  {
    GenerationCharsetsWellFormed();
    Prepare(o, GenerationCharsets, src)
  }

  /** `generatePassword`: validate, seed, fill, and shuffle the whole buffer. */
  function GeneratePassword(o: GeneratorOptions, src: Stream): (r: Result<Drawn<string>, GenError>)
    ensures o.length < MinLength || o.length > MaxLength ==> r == Failure(InvalidLength)
    ensures MinLength <= o.length <= MaxLength && !AnySelected(o) ==> r == Failure(NoCategory)
    ensures ValidateOptions(o).Success? ==> r.Success? || r == Failure(RandomFailure)
    ensures r.Success? ==> ValidateOptions(o).Success? && |r.value.value| == o.length
    ensures r.Success? ==> PreShuffle(o, src).Success?
                           && multiset(r.value.value) == multiset(PreShuffle(o, src).value.value)
  {
    var buf :- PreShuffle(o, src);
    Lift(SecureShuffle(buf.value, buf.rest))
  }

  /** A run that passes validation is the fill loop started from the seeds. */
  lemma PrepareUnfold(o: GeneratorOptions, cs: Charsets, src: Stream)
    requires WellFormed(cs) && ValidateOptions(o).Success?
    ensures |PoolOf(o, cs)| > 0
    ensures Prepare(o, cs, src)
            == match SeedsOf(o, cs, src)
               case Failure(_) => Failure(RandomFailure)
               case Success(seeded) => Lift(Fill(seeded.value, o.length, PoolOf(o, cs), o.noRepeats, seeded.rest))
  {
    PoolContents(o, cs);
  }

  /** The picked seeds lie in the pool and are pairwise distinct. */
  lemma SeedsInPool(o: GeneratorOptions, cs: Charsets, src: Stream)
    requires WellFormed(cs)
    requires o.length >= SelectedCount(o)
    requires PickFrom(o, cs, src).Success?
    ensures var req := PickFrom(o, cs, src).value.value;
            && (forall i :: 0 <= i < |req| ==> req[i] in PoolOf(o, cs))
            && Distinct(req)
  {
    var req := PickFrom(o, cs, src).value.value;
    PickFromOnePerCategory(o, cs, src);
    PoolContents(o, cs);
    forall i | 0 <= i < |req|
      ensures req[i] in PoolOf(o, cs)
    {
      var cat := ClassOf(req[i]);
      assert Selected(o, cat) && req[i] in FilterIf(Alphabet(cat, cs), o.excludeAmbiguous);
    }
    DistinctClassesDistinct(req);
  }

  /** A buffer made of seeds from the pool followed by pool characters holds pool characters only. */
  lemma SeededFromPool(req: string, buf: string, pool: string)
    requires |req| <= |buf| && buf[..|req|] == req
    requires forall i :: 0 <= i < |req| ==> req[i] in pool
    requires forall i :: |req| <= i < |buf| ==> buf[i] in pool
    ensures forall i :: 0 <= i < |buf| ==> buf[i] in pool
  {
    forall i | 0 <= i < |req|
      ensures buf[i] in pool
    {
      assert buf[i] == buf[..|req|][i];
    }
  }

  /** The buffer before the shuffle, once `Prepare` succeeded. */
  function Prepared(o: GeneratorOptions, cs: Charsets, src: Stream): string
    requires WellFormed(cs) && Prepare(o, cs, src).Success?
  {
    Prepare(o, cs, src).value.value
  }

  /** The buffer before the shuffle holds characters of the pool only. */
  lemma PrepareFromPool(o: GeneratorOptions, cs: Charsets, src: Stream)
    requires WellFormed(cs) && Prepare(o, cs, src).Success?
    ensures forall i :: 0 <= i < |Prepared(o, cs, src)| ==> Prepared(o, cs, src)[i] in PoolOf(o, cs)
  {
    PrepareUnfold(o, cs, src);
    var seeded := SeedsOf(o, cs, src).value;
    if o.requireEachSelectedType {
      SeedsInPool(o, cs, src);
    }
    SeededFromPool(seeded.value, Prepared(o, cs, src), PoolOf(o, cs));
  }

  /** When each type is required, the buffer starts with the picked seeds, so every selected category is present. */
  lemma PrepareSeeded(o: GeneratorOptions, cs: Charsets, src: Stream)
    requires WellFormed(cs) && Prepare(o, cs, src).Success?
    requires o.requireEachSelectedType
    ensures PickFrom(o, cs, src).Success?
    ensures Prepared(o, cs, src)[..SelectedCount(o)] == PickFrom(o, cs, src).value.value
    ensures Covers(o, Prepared(o, cs, src))
  {
    PrepareUnfold(o, cs, src);
    PickFromOnePerCategory(o, cs, src);
    PrefixCovers(o, PickFrom(o, cs, src).value.value, Prepared(o, cs, src));
  }

  /** With `noRepeats`, no two neighbours of the buffer are equal (the seeds are pairwise distinct). */
  lemma PrepareNoRepeats(o: GeneratorOptions, cs: Charsets, src: Stream)
    requires WellFormed(cs) && Prepare(o, cs, src).Success?
    requires o.noRepeats
    ensures NoAdjacentRepeats(Prepared(o, cs, src))
  {
    PrepareUnfold(o, cs, src);
    if o.requireEachSelectedType {
      SeedsInPool(o, cs, src);
    }
  }

  /**
    What the buffer of generation.ts holds before its shuffle: characters of
    `buildPool` only; the picked seeds in front when each type is required,
    so one character of every selected category; and, with `noRepeats`, no
    two equal neighbours.
   */
  lemma PreShuffleContents(o: GeneratorOptions, src: Stream)
    requires PreShuffle(o, src).Success?
    ensures var buf := PreShuffle(o, src).value.value;
            && (forall i :: 0 <= i < |buf| ==> buf[i] in BuildPool(o))
            && (o.requireEachSelectedType ==>
                  && PickRequiredCharacters(o, src).Success?
                  && buf[..SelectedCount(o)] == PickRequiredCharacters(o, src).value.value
                  && Covers(o, buf))
            && (o.noRepeats ==> NoAdjacentRepeats(buf))
  {
    GenerationCharsetsWellFormed();
    PrepareFromPool(o, GenerationCharsets, src);
    if o.requireEachSelectedType {
      PrepareSeeded(o, GenerationCharsets, src);
    }
    if o.noRepeats {
      PrepareNoRepeats(o, GenerationCharsets, src);
    }
  }

  /**
    The password generation.ts returns: the requested length, characters of
    `buildPool` only and, when each type is required, every selected category.
    Adjacent repeats are not ruled out here: the shuffle may bring equal
    characters together.
   */
  lemma GeneratedContents(o: GeneratorOptions, src: Stream)
    requires GeneratePassword(o, src).Success?
    ensures var pw := GeneratePassword(o, src).value.value;
            && |pw| == o.length
            && (forall i :: 0 <= i < |pw| ==> pw[i] in BuildPool(o))
            && (o.requireEachSelectedType ==> Covers(o, pw))
  {
    var pw := GeneratePassword(o, src).value.value;
    var buf := PreShuffle(o, src).value.value;
    PreShuffleContents(o, src);
    PermutationMembers(buf, pw);
    if o.requireEachSelectedType {
      PermutedCovers(o, buf, pw);
    }
  }

  /** The characters of a prefix are among those of the whole sequence. */
  lemma PrefixSubMultiset(s: string, k: nat)
    requires k <= |s|
    ensures multiset(s[..k]) <= multiset(s)
  {
    assert s == s[..k] + s[k..];
  }

  /**
    When each type is required, the picked characters all survive into the
    password, with their multiplicities: the fill only appends and the
    shuffle only permutes.
   */
  lemma RequiredKept(o: GeneratorOptions, src: Stream)
    requires GeneratePassword(o, src).Success?
    requires o.requireEachSelectedType
    ensures PickRequiredCharacters(o, src).Success?
    ensures multiset(PickRequiredCharacters(o, src).value.value) <= multiset(GeneratePassword(o, src).value.value)
  {
    var buf := PreShuffle(o, src).value.value;
    PreShuffleContents(o, src);
    assert SelectedCount(o) <= 4 < MinLength <= |buf|;
    PrefixSubMultiset(buf, SelectedCount(o));
  }
}
