/**
  `generatePassword` of index.ts: validate, build one filtered pool per selected
  category, optionally seed one character of each pool, fill from the joined
  pools, then run Fisher-Yates over the buffer.

  `secureRandomInt(max)` reduces one word modulo `max`, which is `DrawIndex`;
  every call passes a nonempty pool's length, so `max` is never zero.
 */
module IndexGenerator {
  import opened Results
  import opened Text
  import opened Alphabets
  import opened Randomness
  import opened Options

  const InvalidLengthMessage: string := "Longueur invalide (8-64)"
  const NoCategoryMessage: string := "Aucune catégorie sélectionnée"

  function AllChars(o: GeneratorOptions, cs: Charsets): string {
    Join(Pools(o, cs))
  }

  /** The `requiredChars` loop: one drawn character of each pool, in pool order. */
  function RequiredChars(pools: seq<string>, src: Stream): (r: Result<Drawn<string>, RandomError>)
    requires forall i :: 0 <= i < |pools| ==> |pools[i]| > 0
    ensures r.Success? <==> |src| >= |pools|
    ensures r.Success? ==>
              && |r.value.value| == |pools|
              && r.value.rest == src[|pools|..]
              && (forall i :: 0 <= i < |pools| ==> r.value.value[i] == pools[i][src[i] % |pools[i]|])
              && (forall i :: 0 <= i < |pools| ==> r.value.value[i] in pools[i])
  {
    if |pools| == 0 then Success(Drawn("", src))
    else
      match DrawIndex(|pools[0]|, src)
      case Failure(e) => Failure(e)
      case Success(Drawn(j, rest)) =>
        match RequiredChars(pools[1..], rest)
        case Failure(e) => Failure(e)
        case Success(Drawn(tail, rest2)) => Success(Drawn([pools[0][j]] + tail, rest2))
  }

  /** Options the validation accepts. */
  predicate Valid(o: GeneratorOptions) {
    MinLength <= o.length <= MaxLength && AnySelected(o)
  }

  /**
    The buffer just before the shuffle: validation, seeds, then the fill loop.
    The symbol alphabet is a parameter so that the proofs need not look inside
    it; `PreShuffle` passes the alphabet of index.ts.
   */
  function Build(o: GeneratorOptions, cs: Charsets, src: Stream): (r: Result<Drawn<string>, GenError>)
    requires WellFormed(cs)
    ensures o.length < MinLength || o.length > MaxLength ==> r == Failure(InvalidLength)
    ensures MinLength <= o.length <= MaxLength && !AnySelected(o) ==> r == Failure(NoCategory)
    ensures Valid(o) ==> r.Success? || r == Failure(RandomFailure)
    ensures r.Success? ==> Valid(o) && |r.value.value| == o.length
  {
    if o.length < MinLength || o.length > MaxLength then Failure(InvalidLength)
    else
      var pools := Pools(o, cs);
      if |pools| == 0 then Failure(NoCategory)
      else
        PoolsNonempty(o, cs);
        var required :- Lift(Seeds(o, pools, src));
        assert |required.value| <= 4 < o.length;
        var all := AllChars(o, cs);
        assert pools[0][0] in all;
        Lift(Fill(required.value, o.length, all, o.noRepeats, required.rest))
  }

  /** The seeds: one per pool when each type is required, none otherwise. */
  function Seeds(o: GeneratorOptions, pools: seq<string>, src: Stream): (r: Result<Drawn<string>, RandomError>)
    requires forall i :: 0 <= i < |pools| ==> |pools[i]| > 0
    ensures r.Success? ==> |r.value.value| <= |pools|
  {
    if o.requireEachSelectedType then RequiredChars(pools, src) else Success(Drawn("", src))
  }

  function PreShuffle(o: GeneratorOptions, src: Stream): (r: Result<Drawn<string>, GenError>)
    ensures o.length < MinLength || o.length > MaxLength ==> r == Failure(InvalidLength)
    ensures MinLength <= o.length <= MaxLength && !AnySelected(o) ==> r == Failure(NoCategory)
    ensures Valid(o) ==> r.Success? || r == Failure(RandomFailure)
    ensures r.Success? ==> Valid(o) && |r.value.value| == o.length
  {
    IndexCharsetsWellFormed();
    Build(o, IndexCharsets, src)
  }

  /** `generatePassword`: the pre-shuffle buffer, shuffled. */
  function GeneratePassword(o: GeneratorOptions, src: Stream): (r: Result<Drawn<string>, GenError>)
    ensures o.length < MinLength || o.length > MaxLength ==> r == Failure(InvalidLength)
    ensures MinLength <= o.length <= MaxLength && !AnySelected(o) ==> r == Failure(NoCategory)
    ensures Valid(o) ==> r.Success? || r == Failure(RandomFailure)
    ensures r.Success? ==> Valid(o) && |r.value.value| == o.length
    ensures r.Success? ==> PreShuffle(o, src).Success?
                           && multiset(r.value.value) == multiset(PreShuffle(o, src).value.value)
  {
    var buf :- PreShuffle(o, src);
    Lift(ShuffleDown(buf.value, |buf.value| - 1, buf.rest))
  }

  /**
    The fill keeps the seeds in front and adds characters of `all`; so, when the
    seeds come one from each pool and `all` holds every pool, the buffer holds
    nothing else, and each seed is still in it.
   */
  lemma FilledFromPools(pools: seq<string>, all: string, req: string, buf: string)
    requires forall c :: c in all <==> InSomePool(pools, c)
    requires |req| <= |pools| && forall i :: 0 <= i < |req| ==> req[i] in pools[i]
    requires |req| <= |buf| && buf[..|req|] == req
    requires forall i :: |req| <= i < |buf| ==> buf[i] in all
    ensures forall i :: 0 <= i < |buf| ==> InSomePool(pools, buf[i])
    ensures forall i :: 0 <= i < |req| ==> buf[i] == req[i]
  {
    forall i | 0 <= i < |buf|
      ensures InSomePool(pools, buf[i])
    {
      if i < |req| {
        assert buf[i] == buf[..|req|][i] == req[i];
        assert req[i] in pools[i];
      } else {
        assert buf[i] in all;
      }
    }
  }

  /** A valid run is the fill loop started from the seeds. */
  lemma BuildUnfold(o: GeneratorOptions, cs: Charsets, src: Stream)
    requires WellFormed(cs) && Valid(o)
    ensures forall i :: 0 <= i < |Pools(o, cs)| ==> |Pools(o, cs)[i]| > 0
    ensures |AllChars(o, cs)| > 0
    ensures Build(o, cs, src)
            == match Seeds(o, Pools(o, cs), src)
               case Failure(_) => Failure(RandomFailure)
               case Success(seeded) => Lift(Fill(seeded.value, o.length, AllChars(o, cs), o.noRepeats, seeded.rest))
  {
    PoolsNonempty(o, cs);
    assert Pools(o, cs)[0][0] in AllChars(o, cs);
  }

  /** The buffer before the shuffle, once `Build` succeeded. */
  function Built(o: GeneratorOptions, cs: Charsets, src: Stream): string
    requires WellFormed(cs) && Build(o, cs, src).Success?
  {
    Build(o, cs, src).value.value
  }

  /** The buffer holds characters of the pools only. */
  lemma BuildFromPools(o: GeneratorOptions, cs: Charsets, src: Stream)
    requires WellFormed(cs) && Build(o, cs, src).Success?
    ensures forall i :: 0 <= i < |Built(o, cs, src)| ==> InSomePool(Pools(o, cs), Built(o, cs, src)[i])
  {
    BuildUnfold(o, cs, src);
    var pools := Pools(o, cs);
    var seeded := Seeds(o, pools, src).value;
    FilledFromPools(pools, AllChars(o, cs), seeded.value, Built(o, cs, src));
  }

  /** With ambiguous characters excluded, none is in the buffer. */
  lemma BuildNoAmbiguous(o: GeneratorOptions, cs: Charsets, src: Stream)
    requires WellFormed(cs) && Build(o, cs, src).Success?
    requires o.excludeAmbiguous
    ensures forall i :: 0 <= i < |Built(o, cs, src)| ==> Built(o, cs, src)[i] !in Ambiguous
  {
    BuildFromPools(o, cs, src);
    var pools := Pools(o, cs);
    var buf := Built(o, cs, src);
    forall i | 0 <= i < |buf|
      ensures buf[i] !in Ambiguous
    {
      var k :| 0 <= k < |pools| && buf[i] in pools[k];
    }
  }

  /**
    When each type is required, the buffer starts with one character of each
    selected category, so every selected category is present.
   */
  lemma BuildSeeded(o: GeneratorOptions, cs: Charsets, src: Stream)
    requires WellFormed(cs) && Build(o, cs, src).Success?
    requires o.requireEachSelectedType
    ensures SelectedCount(o) <= |Built(o, cs, src)|
    ensures OnePerCategory(o, cs, Built(o, cs, src)[..SelectedCount(o)])
    ensures Covers(o, Built(o, cs, src))
  {
    BuildUnfold(o, cs, src);
    var req := Seeds(o, Pools(o, cs), src).value.value;
    var buf := Built(o, cs, src);
    DrawnOnePerCategory(o, cs, req);
    PrefixCovers(o, req, buf);
  }

  /** With `noRepeats`, no two neighbours of the buffer are equal (the seeds are pairwise distinct). */
  lemma BuildNoRepeats(o: GeneratorOptions, cs: Charsets, src: Stream)
    requires WellFormed(cs) && Build(o, cs, src).Success?
    requires o.noRepeats
    ensures NoAdjacentRepeats(Built(o, cs, src))
  {
    BuildUnfold(o, cs, src);
    if o.requireEachSelectedType {
      OnePerPoolClasses(o, cs, Seeds(o, Pools(o, cs), src).value.value);
    }
  }

  /**
    What the buffer of index.ts holds before its shuffle: characters of the
    pools only; no ambiguous character when they are excluded; one character
    of every selected category in front when each is required; and, with
    `noRepeats`, no two equal neighbours.
   */
  lemma PreShuffleContents(o: GeneratorOptions, src: Stream)
    requires PreShuffle(o, src).Success?
    ensures var buf := PreShuffle(o, src).value.value;
            && (forall i :: 0 <= i < |buf| ==> buf[i] in AllChars(o, IndexCharsets))
            && (o.excludeAmbiguous ==> forall i :: 0 <= i < |buf| ==> buf[i] !in Ambiguous)
            && (o.requireEachSelectedType ==>
                  && SelectedCount(o) <= |buf|
                  && OnePerCategory(o, IndexCharsets, buf[..SelectedCount(o)])
                  && Covers(o, buf))
            && (o.noRepeats ==> NoAdjacentRepeats(buf))
  {
    IndexCharsetsWellFormed();
    BuildFromPools(o, IndexCharsets, src);
    if o.excludeAmbiguous {
      BuildNoAmbiguous(o, IndexCharsets, src);
    }
    if o.requireEachSelectedType {
      BuildSeeded(o, IndexCharsets, src);
    }
    if o.noRepeats {
      BuildNoRepeats(o, IndexCharsets, src);
    }
  }

  /**
    The generated password: exactly `length` characters of the pools, none
    ambiguous when they are excluded, and one of every selected category when
    each is required. Adjacent repeats are not excluded here: the shuffle may
    bring equal characters together.
   */
  lemma GeneratedContents(o: GeneratorOptions, src: Stream)
    requires GeneratePassword(o, src).Success?
    ensures var pw := GeneratePassword(o, src).value.value;
            && |pw| == o.length
            && (forall i :: 0 <= i < |pw| ==> pw[i] in AllChars(o, IndexCharsets))
            && (o.excludeAmbiguous ==> forall i :: 0 <= i < |pw| ==> pw[i] !in Ambiguous)
            && (o.requireEachSelectedType ==> Covers(o, pw))
  {
    var pw := GeneratePassword(o, src).value.value;
    var buf := PreShuffle(o, src).value.value;
    PreShuffleContents(o, src);
    PermutationMembers(buf, pw);
    if o.requireEachSelectedType {
      PermutedCovers(o, buf, pw);
    }
  }

  /** The seeds read one word per pool when each type is required, and none otherwise. */
  lemma {:induction false} SeedsWords(o: GeneratorOptions, pools: seq<string>, src: Stream)
    requires forall i :: 0 <= i < |pools| ==> |pools[i]| > 0
    ensures var n := if o.requireEachSelectedType then |pools| else 0;
            var r := Seeds(o, pools, src);
            && (r.Success? <==> |src| >= n)
            && (r.Success? ==> |r.value.value| == n && r.value.rest == src[n..])
  {
  }

  /** A fill that starts after `n` seed words reads up to word `target` of the whole stream. */
  lemma {:induction false} FillAfterSeeds(seeds: string, target: int, pool: string, src: Stream, n: nat)
    requires |pool| > 0
    requires |seeds| == n <= target && n <= |src|
    ensures var r := Fill(seeds, target, pool, false, src[n..]);
            && (r.Success? <==> |src| >= target)
            && (r.Success? ==> r.value.rest == src[target..])
  {
    FillWithoutRejection(seeds, target, pool, src[n..]);
    if |src| >= target {
      DropTwice(src, n, target - n);
    }
  }

  /** Without `noRepeats` no draw is thrown away: `length` words for the seeds and the fill. */
  lemma {:induction false} BuildWords(o: GeneratorOptions, cs: Charsets, src: Stream)
    requires WellFormed(cs)
    requires Valid(o) && !o.noRepeats
    ensures Build(o, cs, src).Success? <==> |src| >= o.length
    ensures Build(o, cs, src).Success? ==> Build(o, cs, src).value.rest == src[o.length..]
  {
    BuildUnfold(o, cs, src);
    var pools := Pools(o, cs);
    var n := if o.requireEachSelectedType then |pools| else 0;
    SeedsWords(o, pools, src);
    var seeded := Seeds(o, pools, src);
    if seeded.Success? {
      FillAfterSeeds(seeded.value.value, o.length, AllChars(o, cs), src, n);
    }
  }

  /**
    A valid run without `noRepeats` reads exactly `2 * length - 1` words: the
    seeds and the fill make `length` characters, and the shuffle takes one word
    per position but the first.
   */
  lemma {:induction false} WordsNeeded(o: GeneratorOptions, src: Stream)
    requires Valid(o) && !o.noRepeats
    ensures GeneratePassword(o, src).Success? <==> |src| >= 2 * o.length - 1
    ensures GeneratePassword(o, src).Success? ==> GeneratePassword(o, src).value.rest == src[2 * o.length - 1..]
  {
    PreShuffleWords(o, src);
    if PreShuffle(o, src).Success? {
      ShuffleWords(o, src, o.length);
    }
  }

  /** A buffer of `n` characters built from the first `n` words is shuffled with the next `n - 1`. */
  lemma {:induction false} ShuffleWords(o: GeneratorOptions, src: Stream, n: nat)
    requires PreShuffle(o, src).Success?
    requires |PreShuffle(o, src).value.value| == n >= 1 && n <= |src|
    requires PreShuffle(o, src).value.rest == src[n..]
    ensures GeneratePassword(o, src).Success? <==> |src| >= 2 * n - 1
    ensures GeneratePassword(o, src).Success? ==> GeneratePassword(o, src).value.rest == src[2 * n - 1..]
  {
    GenerateUnfold(o, src);
    var pre := PreShuffle(o, src).value;
    RestAfterShuffle(src, n, ShuffleDown(pre.value, n - 1, pre.rest), GeneratePassword(o, src));
  }

  /** The buffer of index.ts reads one word per character when `noRepeats` is off. */
  lemma {:induction false} PreShuffleWords(o: GeneratorOptions, src: Stream)
    requires Valid(o) && !o.noRepeats
    ensures PreShuffle(o, src).Success? <==> |src| >= o.length
    ensures PreShuffle(o, src).Success? ==> PreShuffle(o, src).value.rest == src[o.length..]
  {
    IndexCharsetsWellFormed();
    BuildWords(o, IndexCharsets, src);
  }

  /** A run whose buffer was built is the shuffle of that buffer. */
  lemma {:induction false} GenerateUnfold(o: GeneratorOptions, src: Stream)
    requires PreShuffle(o, src).Success?
    ensures var pre := PreShuffle(o, src).value;
            GeneratePassword(o, src) == Lift(ShuffleDown(pre.value, |pre.value| - 1, pre.rest))
  {
  }

  /**
    Whatever the shuffle of a buffer of `n` characters returns, if it reads the
    `n - 1` words after the first `n`, the run that lifts it reads `2 * n - 1`.
   */
  lemma {:induction false} RestAfterShuffle(src: Stream, n: nat, r: Result<Drawn<string>, RandomError>,
                                           run: Result<Drawn<string>, GenError>)
    requires 1 <= n <= |src|
    requires r.Success? <==> |src[n..]| >= Max(n - 1, 0)
    requires r.Success? ==> r.value.rest == src[n..][Max(n - 1, 0)..]
    requires run == Lift(r)
    ensures run.Success? <==> |src| >= 2 * n - 1
    ensures run.Success? ==> run.value.rest == src[2 * n - 1..]
  {
    if r.Success? {
      DropTwice(src, n, n - 1);
    }
  }
}
