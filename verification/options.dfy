/**
  What both generators share: their options, the categories the options select,
  and the fill loop that tops the buffer up with drawn characters.
 */
module Options {
  import opened Results
  import opened Text
  import opened Alphabets
  import opened Randomness

  /**
    `GeneratorOptions`. The three optional flags of the source read as `false`
    when absent, which is how both generators treat `undefined`.
   */
  datatype GeneratorOptions = GeneratorOptions(
    length: int,
    includeLowercase: bool,
    includeUppercase: bool,
    includeDigits: bool,
    includeSymbols: bool,
    excludeAmbiguous: bool,
    noRepeats: bool,
    requireEachSelectedType: bool)

  /** Why a generator gave up: the three validation errors, or no random words left. */
  datatype GenError = InvalidLength | NoCategory | InsufficientLength | RandomFailure

  /** A failure of the random source, reported as a generator error. */
  function Lift<T>(r: Result<T, RandomError>): Result<T, GenError> {
    match r
    case Success(v) => Success(v)
    case Failure(_) => Failure(RandomFailure)
  }

  const MinLength: int := 8
  const MaxLength: int := 64

  predicate Selected(o: GeneratorOptions, cat: Category) {
    match cat
    case Lower => o.includeLowercase
    case Upper => o.includeUppercase
    case Digit => o.includeDigits
    case Symbol => o.includeSymbols
  }

  predicate AnySelected(o: GeneratorOptions) {
    o.includeLowercase || o.includeUppercase || o.includeDigits || o.includeSymbols
  }

  function Flag(b: bool): nat {
    if b then 1 else 0
  }

  /** How many of the four include flags are set. */
  function SelectedCount(o: GeneratorOptions): nat {
    Flag(o.includeLowercase) + Flag(o.includeUppercase) + Flag(o.includeDigits) + Flag(o.includeSymbols)
  }

  /** The selected categories in the fixed order lowercase, uppercase, digits, symbols. */
  function SelectedCategories(o: GeneratorOptions): (cats: seq<Category>)
    ensures forall cat :: cat in cats <==> Selected(o, cat)
    ensures |cats| == SelectedCount(o)
    ensures |cats| <= 4
    ensures |cats| == 0 <==> !AnySelected(o)
    ensures Distinct(cats)
  {
    (if o.includeLowercase then [Lower] else [])
    + (if o.includeUppercase then [Upper] else [])
    + (if o.includeDigits then [Digit] else [])
    + (if o.includeSymbols then [Symbol] else [])
  }

  /** The filtered alphabet of each selected category, in selection order. */
  function Pools(o: GeneratorOptions, cs: Charsets): (ps: seq<string>)
    ensures |ps| == |SelectedCategories(o)|
    ensures forall i :: 0 <= i < |ps| ==> ps[i] == FilterIf(Alphabet(SelectedCategories(o)[i], cs), o.excludeAmbiguous)
  {
    var cats := SelectedCategories(o);
    seq(|cats|, i requires 0 <= i < |cats| => FilterIf(Alphabet(cats[i], cs), o.excludeAmbiguous))
  }

  predicate InSomePool(pools: seq<string>, c: char) {
    exists k :: 0 <= k < |pools| && c in pools[k]
  }

  /** A character of some pool belongs to a selected category. */
  lemma PoolCharacterSelected(o: GeneratorOptions, cs: Charsets, c: char)
    requires WellFormed(cs)
    requires InSomePool(Pools(o, cs), c)
    ensures Selected(o, ClassOf(c))
  {
    var cats := SelectedCategories(o);
    var k :| 0 <= k < |Pools(o, cs)| && c in Pools(o, cs)[k];
    assert c in Alphabet(cats[k], cs);
    assert cats[k] in cats;
  }

  /** The pools joined in order (`join('')`). */
  function Join(ps: seq<string>): (r: string)
    ensures forall c :: c in r <==> InSomePool(ps, c)
  {
    if |ps| == 0 then ""
    else
      var r := ps[0] + Join(ps[1..]);
      assert forall i :: 1 <= i < |ps| ==> ps[i] == ps[1..][i - 1];
      r
  }

  /** No pool is empty, whatever the options. */
  lemma PoolsNonempty(o: GeneratorOptions, cs: Charsets)
    requires WellFormed(cs)
    ensures forall i :: 0 <= i < |Pools(o, cs)| ==> |Pools(o, cs)[i]| > 0
  {
    var cats := SelectedCategories(o);
    forall i | 0 <= i < |cats|
      ensures |Pools(o, cs)[i]| > 0
    {
      FilteredAlphabetNonempty(cats[i], cs, o.excludeAmbiguous);
    }
  }

  /**
    A character taken from each pool in turn has the class of that pool's
    category, so the characters are pairwise distinct and every selected
    category is represented among them.
   */
  lemma OnePerPoolClasses(o: GeneratorOptions, cs: Charsets, chars: string)
    requires WellFormed(cs)
    requires |chars| == |Pools(o, cs)|
    requires forall i :: 0 <= i < |chars| ==> chars[i] in Pools(o, cs)[i]
    ensures forall i :: 0 <= i < |chars| ==> ClassOf(chars[i]) == SelectedCategories(o)[i]
    ensures Distinct(chars)
    ensures forall cat :: Selected(o, cat) ==> exists i :: 0 <= i < |chars| && ClassOf(chars[i]) == cat
  {
    var cats := SelectedCategories(o);
    forall i | 0 <= i < |chars|
      ensures ClassOf(chars[i]) == cats[i]
    {
      assert chars[i] in Alphabet(cats[i], cs);
      AlphabetClass(cats[i], cs, chars[i]);
    }
    forall cat | Selected(o, cat)
      ensures exists i :: 0 <= i < |chars| && ClassOf(chars[i]) == cat
    {
      var i :| 0 <= i < |cats| && cats[i] == cat;
      assert ClassOf(chars[i]) == cat;
    }
  }
  /** Every character is of a selected category and comes from that category's filtered alphabet. */
  predicate FromSelected(o: GeneratorOptions, cs: Charsets, s: string) {
    forall i :: 0 <= i < |s| ==>
      Selected(o, ClassOf(s[i])) && s[i] in FilterIf(Alphabet(ClassOf(s[i]), cs), o.excludeAmbiguous)
  }

  /** No two characters share a category. */
  predicate DistinctClasses(s: string) {
    forall i, j :: 0 <= i < j < |s| ==> ClassOf(s[i]) != ClassOf(s[j])
  }

  /** Every selected category has a character in `s`. */
  predicate Covers(o: GeneratorOptions, s: string) {
    forall cat :: Selected(o, cat) ==> exists i :: 0 <= i < |s| && ClassOf(s[i]) == cat
  }

  /** Exactly one character of each selected category. */
  predicate OnePerCategory(o: GeneratorOptions, cs: Charsets, s: string) {
    && |s| == SelectedCount(o)
    && FromSelected(o, cs, s)
    && DistinctClasses(s)
    && Covers(o, s)
  }

  /** Characters of distinct categories are distinct. */
  lemma DistinctClassesDistinct(s: string)
    requires DistinctClasses(s)
    ensures Distinct(s)
  {
  }

  /** One character drawn from each pool, in order, is one character per selected category. */
  lemma DrawnOnePerCategory(o: GeneratorOptions, cs: Charsets, d: string)
    requires WellFormed(cs)
    requires |d| == |Pools(o, cs)|
    requires forall i :: 0 <= i < |d| ==> d[i] in Pools(o, cs)[i]
    ensures OnePerCategory(o, cs, d)
  {
    var cats := SelectedCategories(o);
    OnePerPoolClasses(o, cs, d);
    forall i | 0 <= i < |d|
      ensures Selected(o, ClassOf(d[i])) && d[i] in FilterIf(Alphabet(ClassOf(d[i]), cs), o.excludeAmbiguous)
    {
      assert ClassOf(d[i]) == cats[i];
    }
  }

  lemma PermutedFromSelected(o: GeneratorOptions, cs: Charsets, d: string, sh: string)
    requires FromSelected(o, cs, d)
    requires forall i :: 0 <= i < |sh| ==> sh[i] in d
    ensures FromSelected(o, cs, sh)
  {
    forall i | 0 <= i < |sh|
      ensures Selected(o, ClassOf(sh[i])) && sh[i] in FilterIf(Alphabet(ClassOf(sh[i]), cs), o.excludeAmbiguous)
    {
      assert sh[i] in d;
      var j :| 0 <= j < |d| && d[j] == sh[i];
    }
  }

  /** A string that starts with a covering prefix covers too. */
  lemma PrefixCovers(o: GeneratorOptions, req: string, buf: string)
    requires Covers(o, req)
    requires |req| <= |buf| && buf[..|req|] == req
    ensures Covers(o, buf)
  {
    forall j | 0 <= j < |req|
      ensures req[j] in buf
    {
      assert buf[j] == buf[..|req|][j];
    }
    PermutedCovers(o, req, buf);
  }

  lemma PermutedCovers(o: GeneratorOptions, d: string, sh: string)
    requires Covers(o, d)
    requires forall j :: 0 <= j < |d| ==> d[j] in sh
    ensures Covers(o, sh)
  {
    forall cat | Selected(o, cat)
      ensures exists i :: 0 <= i < |sh| && ClassOf(sh[i]) == cat
    {
      var j :| 0 <= j < |d| && ClassOf(d[j]) == cat;
      var i :| 0 <= i < |sh| && sh[i] == d[j];
    }
  }

  lemma PermutedDistinctClasses(d: string, sh: string)
    requires DistinctClasses(d)
    requires multiset(d) == multiset(sh)
    ensures DistinctClasses(sh)
  {
    DistinctClassesDistinct(d);
    DistinctPermutation(d, sh);
    PermutationMembers(d, sh);
    forall i, j | 0 <= i < j < |sh|
      ensures ClassOf(sh[i]) != ClassOf(sh[j])
    {
      var a :| 0 <= a < |d| && d[a] == sh[i];
      var b :| 0 <= b < |d| && d[b] == sh[j];
      assert a != b;
    }
  }

  /** A reordering of one character per selected category is still one per category. */
  lemma PermutedSeeds(o: GeneratorOptions, cs: Charsets, d: string, sh: string)
    requires OnePerCategory(o, cs, d)
    requires multiset(d) == multiset(sh)
    ensures OnePerCategory(o, cs, sh)
  {
    PermutationMembers(d, sh);
    PermutedFromSelected(o, cs, d, sh);
    PermutedCovers(o, d, sh);
    PermutedDistinctClasses(d, sh);
  }


  /**
    The fill loop both generators run: while the buffer is shorter than `target`,
    draw a character of `pool`; with `noRepeats`, a draw equal to the last
    character is thrown away (an empty buffer has no last character). The loop
    ends when the buffer is long enough or the words run out.
   */
  function Fill(buf: string, target: int, pool: string, noRepeats: bool, src: Stream): (r: Result<Drawn<string>, RandomError>)
    requires |pool| > 0
    ensures r.Success? ==> |r.value.value| == Max(target, |buf|)
    ensures r.Success? ==> r.value.value[..|buf|] == buf
    ensures r.Success? ==> forall i :: |buf| <= i < |r.value.value| ==> r.value.value[i] in pool
    ensures r.Success? && noRepeats && NoAdjacentRepeats(buf) ==> NoAdjacentRepeats(r.value.value)
    ensures r.Success? ==> |r.value.rest| <= |src| - Max(target - |buf|, 0)
    decreases |src|
  {
    if |buf| >= target then Success(Drawn(buf, src))
    else
      match DrawIndex(|pool|, src)
      case Failure(e) => Failure(e)
      case Success(Drawn(j, rest)) =>
        var next := pool[j];
        if noRepeats && |buf| > 0 && buf[|buf| - 1] == next then Fill(buf, target, pool, noRepeats, rest)
        else
          var r := Fill(buf + [next], target, pool, noRepeats, rest);
          assert r.Success? ==> r.value.value[..|buf|] == (buf + [next])[..|buf|];
          r
  }

  /**
    Without `noRepeats` nothing is thrown away: the fill succeeds exactly when
    there is one word per missing character, reads those words and no more,
    and the `k`-th new character is the pool entry the `k`-th word selects.
   */
  lemma {:induction false} FillWithoutRejection(buf: string, target: int, pool: string, src: Stream)
    requires |pool| > 0
    ensures var r := Fill(buf, target, pool, false, src);
            && (r.Success? <==> |src| >= Max(target - |buf|, 0))
            && (r.Success? ==> r.value.rest == src[Max(target - |buf|, 0)..])
            && (r.Success? ==>
                  forall k :: 0 <= k < Max(target - |buf|, 0) ==> r.value.value[|buf| + k] == pool[src[k] % |pool|])
    decreases |src|
  {
    if |buf| < target && |src| > 0 {
      var j := src[0] % |pool|;
      var next := pool[j];
      FillWithoutRejection(buf + [next], target, pool, src[1..]);
      var r := Fill(buf, target, pool, false, src);
      assert r == Fill(buf + [next], target, pool, false, src[1..]);
      if r.Success? {
        var v := r.value.value;
        assert v[..|buf| + 1] == buf + [next];
        assert v[|buf|] == next;
        forall k | 1 <= k < target - |buf|
          ensures v[|buf| + k] == pool[src[k] % |pool|]
        {
          assert src[1..][k - 1] == src[k];
        }
        assert src[1..][Max(target - |buf| - 1, 0)..] == src[Max(target - |buf|, 0)..];
      }
    }
  }
}
