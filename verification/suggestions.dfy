/**
  The suggestion engine (`generateSuggestions` in index.ts).

  Nine candidate suggestions, each with a fixed impact in bits, are collected in a
  fixed order when their triggers hold; the list is sorted by impact, highest
  first, with a stable sort, cut to eight entries and rendered as text.
 */
module Suggestions {
  import opened Text
  import opened Patterns
  import opened CharClasses

  /** The nine suggestions the engine knows, in the order the source pushes them. */
  datatype Suggestion =
    | Lengthen | AddUppercase | AddSymbols | AddDigit | Diversify
    | AvoidCommonWords | AvoidSequences | AvoidDates | Passphrase

  const AllSuggestions: seq<Suggestion> := [
    Lengthen, AddUppercase, AddSymbols, AddDigit, Diversify,
    AvoidCommonWords, AvoidSequences, AvoidDates, Passphrase
  ]

  /** The position at which the source pushes each suggestion, when triggered. */
  function Rank(s: Suggestion): nat {
    match s
    case Lengthen => 0
    case AddUppercase => 1
    case AddSymbols => 2
    case AddDigit => 3
    case Diversify => 4
    case AvoidCommonWords => 5
    case AvoidSequences => 6
    case AvoidDates => 7
    case Passphrase => 8
  }

  /** The suggestions appear in push order. */
  predicate InPushOrder(s: seq<Suggestion>) {
    forall i, j :: 0 <= i < j < |s| ==> Rank(s[i]) < Rank(s[j])
  }

  function Message(s: Suggestion): string {
    match s
    case Lengthen => "Augmente la longueur vers 12-16+ caractères"
    case AddUppercase => "Ajoute une ou deux majuscules au milieu"
    case AddSymbols => "Ajoute 1-2 symboles non en fin de chaîne"
    case AddDigit => "Incorpore un chiffre imprévisible"
    case Diversify => "Augmente la diversité de caractères uniques"
    case AvoidCommonWords => "Évite les mots courants ou leurs variantes"
    case AvoidSequences => "Remplace les suites simples par des combinaisons imprévisibles"
    case AvoidDates => "Évite les dates ou informations personnelles"
    case Passphrase => "Envisage une passphrase de plusieurs mots uniques"
  }

  /** The estimated gain in bits, used only for ranking and display. */
  function Impact(s: Suggestion): nat {
    match s
    case Lengthen => 10
    case AddUppercase => 5
    case AddSymbols => 8
    case AddDigit => 6
    case Diversify => 6
    case AvoidCommonWords => 15
    case AvoidSequences => 12
    case AvoidDates => 8
    case Passphrase => 12
  }

  /** The fields of the analysis that the engine reads. */
  datatype SuggestionInput = SuggestionInput(
    length: int,
    categories: Categories,
    uniqueCharCount: int,
    detectedPatterns: seq<DetectedPattern>)

  /** How many suggestions are kept. */
  const MaxSuggestions: nat := 8

  /** `uniqueCharCount < length * 0.7`, in exact arithmetic. */
  predicate LowDiversity(d: SuggestionInput) {
    10 * d.uniqueCharCount < 7 * d.length
  }

  /** The condition under which the source pushes each suggestion. */
  predicate Triggered(d: SuggestionInput, s: Suggestion) {
    match s
    case Lengthen => d.length < 12
    case AddUppercase => !d.categories.hasUppercase
    case AddSymbols => !d.categories.hasSymbols
    case AddDigit => !d.categories.hasDigits
    case Diversify => LowDiversity(d)
    case AvoidCommonWords => HasKind(d.detectedPatterns, CommonWord)
    case AvoidSequences => HasKind(d.detectedPatterns, Sequence)
    case AvoidDates => HasKind(d.detectedPatterns, Date)
    case Passphrase => true
  }

  /** The triggered members of `order`, in order. */
  function Select(d: SuggestionInput, order: seq<Suggestion>): (c: seq<Suggestion>)
    ensures forall s :: s in c <==> s in order && Triggered(d, s)
    ensures |c| <= |order|
    ensures |c| == |order| ==> forall s :: s in order ==> Triggered(d, s)
    ensures Distinct(order) ==> Distinct(c)
    ensures InPushOrder(order) ==> InPushOrder(c)
  {
    if |order| == 0 then []
    else
      var rest := Select(d, order[1..]);
      assert order[0] !in order[1..] ==> order[0] !in rest;
      if Triggered(d, order[0]) then
        assert InPushOrder(order) ==> InPushOrder([order[0]] + rest) by {
          if InPushOrder(order) {
            ConsInPushOrder(order, rest);
          }
        }
        [order[0]] + rest
      else rest
  }

  /** Putting the head of a list in push order before any of its later members stays in push order. */
  lemma ConsInPushOrder(order: seq<Suggestion>, rest: seq<Suggestion>)
    requires |order| > 0 && InPushOrder(order) && InPushOrder(rest)
    requires forall y :: y in rest ==> y in order[1..]
    ensures InPushOrder([order[0]] + rest)
  {
    forall y | y in rest ensures Rank(order[0]) < Rank(y) {
      var k :| 0 <= k < |order[1..]| && order[1..][k] == y;
      assert order[k + 1] == y;
    }
    var c := [order[0]] + rest;
    forall i, j | 0 <= i < j < |c| ensures Rank(c[i]) < Rank(c[j]) {
      assert c[j] == rest[j - 1] && c[j] in rest;
      if i > 0 {
        assert c[i] == rest[i - 1];
      }
    }
  }

  /**
    The candidates: each suggestion exactly when its trigger holds, once, in the
    order the source pushes them.
   */
  function Candidates(d: SuggestionInput): (c: seq<Suggestion>)
    ensures forall s :: s in c <==> Triggered(d, s)
    ensures Passphrase in c
    ensures 1 <= |c| <= |AllSuggestions|
    ensures Distinct(c)
    ensures |c| == |AllSuggestions| ==> forall s :: Triggered(d, s)
    ensures InPushOrder(c)
  {
    EverySuggestionListed();
    AllSuggestionsInPushOrder();
    Select(d, AllSuggestions)
  }

  lemma EverySuggestionListed()
    ensures forall s :: s in AllSuggestions
  {
    forall s ensures s in AllSuggestions {
      match s
      case Lengthen => assert AllSuggestions[0] == s;
      case AddUppercase => assert AllSuggestions[1] == s;
      case AddSymbols => assert AllSuggestions[2] == s;
      case AddDigit => assert AllSuggestions[3] == s;
      case Diversify => assert AllSuggestions[4] == s;
      case AvoidCommonWords => assert AllSuggestions[5] == s;
      case AvoidSequences => assert AllSuggestions[6] == s;
      case AvoidDates => assert AllSuggestions[7] == s;
      case Passphrase => assert AllSuggestions[8] == s;
    }
  }

  /** Each suggestion's rank is its place in the list of all suggestions. */
  lemma AllSuggestionsInPushOrder()
    ensures InPushOrder(AllSuggestions)
  {
    forall i | 0 <= i < |AllSuggestions| ensures Rank(AllSuggestions[i]) == i {
    }
  }

  /** The uppercase suggestion alone carries the lowest impact, 5 bits. */
  lemma LowestImpact(s: Suggestion)
    ensures Impact(s) >= Impact(AddUppercase)
    ensures Impact(s) == Impact(AddUppercase) ==> s == AddUppercase
  {
    match s
    case AddUppercase =>
    case _ =>
  }

  // ---------------------------------------------------------------------------
  // The stable sort by impact, highest first.

  predicate SortedByImpact(s: seq<Suggestion>) {
    forall i, j :: 0 <= i < j < |s| ==> Impact(s[i]) >= Impact(s[j])
  }

  /** The suggestions of one impact, in their order of appearance. */
  function WithImpact(s: seq<Suggestion>, n: nat): seq<Suggestion> {
    if |s| == 0 then []
    else (if Impact(s[0]) == n then [s[0]] else []) + WithImpact(s[1..], n)
  }

  lemma WithImpactCons(x: Suggestion, s: seq<Suggestion>, n: nat)
    ensures WithImpact([x] + s, n) == (if Impact(x) == n then [x] else []) + WithImpact(s, n)
  {
    assert ([x] + s)[1..] == s;
  }

  /** Place `x` before the first element whose impact it reaches. */
  function Insert(x: Suggestion, s: seq<Suggestion>): (r: seq<Suggestion>)
    ensures multiset(r) == multiset(s) + multiset{x}
    ensures |r| == |s| + 1
    ensures forall n :: WithImpact(r, n) == (if Impact(x) == n then [x] else []) + WithImpact(s, n)
  {
    if |s| == 0 || Impact(x) >= Impact(s[0]) then
      forall n ensures WithImpact([x] + s, n) == (if Impact(x) == n then [x] else []) + WithImpact(s, n) {
        WithImpactCons(x, s, n);
      }
      [x] + s
    else
      var tail := Insert(x, s[1..]);
      assert s == [s[0]] + s[1..];
      forall n ensures WithImpact([s[0]] + tail, n) == (if Impact(s[0]) == n then [s[0]] else []) + WithImpact(tail, n) {
        WithImpactCons(s[0], tail, n);
      }
      forall n ensures WithImpact(s, n) == (if Impact(s[0]) == n then [s[0]] else []) + WithImpact(s[1..], n) {
        WithImpactCons(s[0], s[1..], n);
      }
      [s[0]] + tail
  }

  lemma {:induction false} InsertKeepsSorted(x: Suggestion, s: seq<Suggestion>)
    requires SortedByImpact(s)
    ensures SortedByImpact(Insert(x, s))
    decreases |s|
  {
    if |s| > 0 && Impact(x) < Impact(s[0]) {
      var tail := Insert(x, s[1..]);
      InsertKeepsSorted(x, s[1..]);
      forall i | 0 <= i < |tail| ensures Impact(s[0]) >= Impact(tail[i]) {
        assert tail[i] in multiset(tail);
        if tail[i] != x {
          assert tail[i] in multiset(s[1..]);
        }
      }
    }
  }

  /**
    JavaScript's stable sort by falling impact: ordered by impact,
    highest first, a permutation of the input, and for every impact the
    suggestions carrying it keep their original order.
   */
  function SortByImpact(s: seq<Suggestion>): (r: seq<Suggestion>)
    ensures SortedByImpact(r)
    ensures multiset(r) == multiset(s) && |r| == |s|
    ensures forall n :: WithImpact(r, n) == WithImpact(s, n)
  {
    if |s| == 0 then []
    else
      var r := Insert(s[0], SortByImpact(s[1..]));
      InsertKeepsSorted(s[0], SortByImpact(s[1..]));
      assert s == [s[0]] + s[1..];
      forall n ensures WithImpact(s, n) == (if Impact(s[0]) == n then [s[0]] else []) + WithImpact(s[1..], n) {
        WithImpactCons(s[0], s[1..], n);
      }
      r
  }

  /** The first `n` suggestions, or all of them when there are fewer. */
  function Take(s: seq<Suggestion>, n: nat): seq<Suggestion> {
    if |s| <= n then s else s[..n]
  }

  /** The kept suggestions, before rendering. */
  function RankedSuggestions(d: SuggestionInput): (r: seq<Suggestion>)
    ensures |r| <= MaxSuggestions
    ensures SortedByImpact(r)
  {
    Take(SortByImpact(Candidates(d)), MaxSuggestions)
  }

  /**
    What survives the cut: every triggered suggestion except the uppercase one
    when all nine are triggered, since it alone has the lowest impact. In
    particular the passphrase suggestion is always kept.
   */
  lemma RankedMembers(d: SuggestionInput, s: Suggestion)
    ensures s in RankedSuggestions(d) <==>
              Triggered(d, s) && !(|Candidates(d)| == |AllSuggestions| && s == AddUppercase)
    ensures Passphrase in RankedSuggestions(d)
  {
    var c := Candidates(d);
    var sorted := SortByImpact(c);
    SortedMembers(c, sorted);
    if |c| == 9 {
      DistinctPermutation(c, sorted);
      DropLowest(sorted);
    }
  }

  lemma SortedMembers(c: seq<Suggestion>, sorted: seq<Suggestion>)
    requires multiset(sorted) == multiset(c)
    ensures forall x :: x in sorted <==> x in c
  {
    forall x ensures x in sorted <==> x in c {
      assert x in multiset(sorted) <==> x in multiset(c);
    }
  }

  /**
    Of nine distinct suggestions sorted by impact, the one cut off the end is
    the uppercase suggestion, which alone has the lowest impact.
   */
  lemma DropLowest(sorted: seq<Suggestion>)
    requires |sorted| == 9 && SortedByImpact(sorted) && Distinct(sorted)
    requires AddUppercase in sorted
    ensures forall x :: x in sorted[..8] <==> x in sorted && x != AddUppercase
  {
    var k :| 0 <= k < 9 && sorted[k] == AddUppercase;
    var last := sorted[8];
    LowestImpact(last);
    assert Impact(last) <= Impact(sorted[k]);
    assert last == AddUppercase;
    forall x ensures x in sorted[..8] <==> x in sorted && x != AddUppercase {
      if x in sorted && x != last {
        var i :| 0 <= i < 9 && sorted[i] == x;
        assert sorted[..8][i] == x;
      }
    }
  }

  // ---------------------------------------------------------------------------
  // Ties keep the push order.

  /** Suggestions of equal impact appear in push order. */
  predicate TiesInPushOrder(s: seq<Suggestion>) {
    forall i, j :: 0 <= i < j < |s| && Impact(s[i]) == Impact(s[j]) ==> Rank(s[i]) < Rank(s[j])
  }

  lemma {:induction false} WithImpactMembers(s: seq<Suggestion>, n: nat, y: Suggestion)
    ensures y in WithImpact(s, n) <==> y in s && Impact(y) == n
    decreases |s|
  {
    if |s| > 0 {
      WithImpactMembers(s[1..], n, y);
      assert s == [s[0]] + s[1..];
    }
  }

  /** Picking the suggestions of one impact keeps the push order. */
  lemma {:induction false} WithImpactInPushOrder(s: seq<Suggestion>, n: nat)
    requires InPushOrder(s)
    ensures InPushOrder(WithImpact(s, n))
    decreases |s|
  {
    if |s| > 0 {
      var rest := WithImpact(s[1..], n);
      WithImpactInPushOrder(s[1..], n);
      forall y | y in rest ensures Rank(s[0]) < Rank(y) {
        WithImpactMembers(s[1..], n, y);
        var k :| 0 <= k < |s[1..]| && s[1..][k] == y;
        assert s[k + 1] == y;
      }
    }
  }

  /** A list each of whose impact groups is in push order has its ties in push order. */
  lemma {:induction false} TiesFromGroups(s: seq<Suggestion>)
    requires forall n: nat :: InPushOrder(WithImpact(s, n))
    ensures TiesInPushOrder(s)
    decreases |s|
  {
    if |s| > 0 {
      var x, t := s[0], s[1..];
      forall n: nat ensures InPushOrder(WithImpact(t, n)) {
        WithImpactCons(x, t, n);
        assert s == [x] + t;
        var g := WithImpact(s, n);
        var h := WithImpact(t, n);
        assert h == g[|g| - |h|..];
      }
      TiesFromGroups(t);
      forall j | 0 < j < |s| && Impact(x) == Impact(s[j]) ensures Rank(x) < Rank(s[j]) {
        var m := Impact(x);
        assert s == [x] + t;
        WithImpactCons(x, t, m);
        assert s[j] == t[j - 1];
        WithImpactMembers(t, m, s[j]);
        var g := WithImpact(s, m);
        assert g == [x] + WithImpact(t, m);
        var k :| 0 <= k < |WithImpact(t, m)| && WithImpact(t, m)[k] == s[j];
        assert g[0] == x && g[k + 1] == s[j];
      }
    }
  }

  /**
    The stable sort keeps equal-impact candidates in push order, and so does the
    cut: of the tied pairs, the digit advice comes before the diversity advice,
    the symbol advice before the date advice, and the sequence advice before the
    passphrase advice.
   */
  lemma RankedTiesInPushOrder(d: SuggestionInput)
    ensures TiesInPushOrder(RankedSuggestions(d))
    ensures var r := RankedSuggestions(d);
            forall i, j :: 0 <= i < |r| && 0 <= j < |r| ==>
              && (r[i] == AddDigit && r[j] == Diversify ==> i < j)
              && (r[i] == AddSymbols && r[j] == AvoidDates ==> i < j)
              && (r[i] == AvoidSequences && r[j] == Passphrase ==> i < j)
  {
    var c := Candidates(d);
    var sorted := SortByImpact(c);
    forall n: nat ensures InPushOrder(WithImpact(sorted, n)) {
      WithImpactInPushOrder(c, n);
    }
    TiesFromGroups(sorted);
    var r := RankedSuggestions(d);
    assert r == sorted[..|r|];
    assert TiesInPushOrder(r);
    TiePairs(r);
  }

  lemma TiePairs(r: seq<Suggestion>)
    requires TiesInPushOrder(r)
    ensures forall i, j :: 0 <= i < |r| && 0 <= j < |r| ==>
              && (r[i] == AddDigit && r[j] == Diversify ==> i < j)
              && (r[i] == AddSymbols && r[j] == AvoidDates ==> i < j)
              && (r[i] == AvoidSequences && r[j] == Passphrase ==> i < j)
  {
    forall i, j | 0 <= i < |r| && 0 <= j < |r| && j <= i && Impact(r[i]) == Impact(r[j]) && r[i] != r[j]
      ensures Rank(r[j]) < Rank(r[i])
    {
    }
  }

  /** `${message} (impact estimé +${impact} bits)`. */
  function Render(s: Suggestion): string {
    Message(s) + " (impact estimé +" + NatToString(Impact(s)) + " bits)"
  }

  /** `generateSuggestions`: the kept suggestions as text, in ranked order. */
  function GenerateSuggestions(d: SuggestionInput): (r: seq<string>)
    ensures |r| == |RankedSuggestions(d)| <= MaxSuggestions
    ensures forall i :: 0 <= i < |r| ==> r[i] == Render(RankedSuggestions(d)[i])
  {
    var ranked := RankedSuggestions(d);
    seq(|ranked|, i requires 0 <= i < |ranked| => Render(ranked[i]))
  }

  /** The rendered list always offers the passphrase advice. */
  lemma PassphraseAlwaysOffered(d: SuggestionInput)
    ensures Render(Passphrase) in GenerateSuggestions(d)
  {
    RankedMembers(d, Passphrase);
    var ranked := RankedSuggestions(d);
    var i :| 0 <= i < |ranked| && ranked[i] == Passphrase;
    assert GenerateSuggestions(d)[i] == Render(Passphrase);
  }
}
