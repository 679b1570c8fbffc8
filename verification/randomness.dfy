/**
  The secure random source and the two helpers built on it (common.ts).

  The platform's `getRandomValues` is replaced by an explicit stream of the 32-bit
  words it would have written, consumed front to back. Every bounded draw reduces
  one word modulo the bound, as the source does; a stream that cannot supply the
  words a call asks for plays the part of a missing `crypto` object.
 */
module Randomness {
  import opened Results

  const Uint32Limit: int := 0x1_0000_0000

  type Uint32 = x: int | 0 <= x < Uint32Limit

  /** The words the random source will hand out, in order. */
  type Stream = seq<Uint32>

  datatype RandomError = RandomnessUnavailable

  /** A value obtained from the source, with the words still unread. */
  datatype Drawn<T> = Drawn(value: T, rest: Stream)

  const UnavailableMessage: string := "Génération sécurisée indisponible dans cet environnement."

  /**
    `secureRandomIndices(max, count)`: nothing is drawn when either bound is not
    positive; otherwise `count` words are read and each yields an index below `max`.
   */
  function SecureRandomIndices(max: int, count: int, src: Stream): (r: Result<Drawn<seq<int>>, RandomError>)
    ensures max <= 0 || count <= 0 ==> r == Success(Drawn([], src))
    ensures max > 0 && count > 0 ==> (r.Success? <==> count <= |src|)
    ensures r.Success? && max > 0 && count > 0 ==>
              && |r.value.value| == count
              && r.value.rest == src[count..]
              && forall i :: 0 <= i < count ==> 0 <= r.value.value[i] < max
  {
    if max <= 0 || count <= 0 then Success(Drawn([], src))
    else if |src| < count then Failure(RandomnessUnavailable)
    else Success(Drawn(seq(count, i requires 0 <= i < count => src[i] % max), src[count..]))
  }

  /** One index below `bound`: `const [index] = secureRandomIndices(bound, 1)`. */
  function DrawIndex(bound: int, src: Stream): (r: Result<Drawn<nat>, RandomError>)
    requires bound > 0
    ensures r.Success? <==> |src| >= 1
    ensures r.Success? ==> r.value.value < bound && r.value.rest == src[1..]
  {
    match SecureRandomIndices(bound, 1, src)
    case Failure(e) => Failure(e)
    case Success(Drawn(v, rest)) => Success(Drawn(v[0], rest))
  }

  /** Dropping `a` words and then `b` more is dropping `a + b`. */
  lemma DropTwice<T>(s: seq<T>, a: nat, b: nat)
    requires a + b <= |s|
    ensures s[a..][b..] == s[a + b..]
  {
  }

  function Swap<T>(s: seq<T>, i: int, j: int): (r: seq<T>)
    requires 0 <= i < |s| && 0 <= j < |s|
    ensures |r| == |s| && multiset(r) == multiset(s)
    ensures r[i] == s[j] && r[j] == s[i]
    ensures forall k :: 0 <= k < |s| && k != i && k != j ==> r[k] == s[k]
  {
    s[i := s[j]][j := s[i]]
  }

  /**
    The Fisher-Yates pass: for `i` from `top` down to 1, swap position `i` with a
    drawn position in `[0, i]`. It reads exactly one word per step.
   */
  function ShuffleDown<T>(arr: seq<T>, top: int, src: Stream): (r: Result<Drawn<seq<T>>, RandomError>)
    requires top < |arr|
    ensures r.Success? <==> |src| >= Max(top, 0)
    ensures r.Success? ==>
              && |r.value.value| == |arr|
              && multiset(r.value.value) == multiset(arr)
              && r.value.rest == src[Max(top, 0)..]
    decreases top
  {
    if top <= 0 then Success(Drawn(arr, src))
    else
      match DrawIndex(top + 1, src)
      case Failure(e) => Failure(e)
      case Success(Drawn(j, rest)) => ShuffleDown(Swap(arr, top, j), top - 1, rest)
  }

  /**
    `secureShuffle(items)`: a shuffled copy. Sequences are values, so the caller's
    `items` is untouched; the copy is a permutation of it and costs `|items| - 1` words.
   */
  function SecureShuffle<T>(items: seq<T>, src: Stream): (r: Result<Drawn<seq<T>>, RandomError>)
    ensures r.Success? <==> |src| >= Max(|items| - 1, 0)
    ensures r.Success? ==>
              && |r.value.value| == |items|
              && multiset(r.value.value) == multiset(items)
              && r.value.rest == src[Max(|items| - 1, 0)..]
  {
    ShuffleDown(items, |items| - 1, src)
  }

  /** Shuffling keeps every element: anything in the copy was in the input and vice versa. */
  lemma ShufflePreservesMembers<T>(items: seq<T>, src: Stream, x: T)
    requires SecureShuffle(items, src).Success?
    ensures x in SecureShuffle(items, src).value.value <==> x in items
  {
    var out := SecureShuffle(items, src).value.value;
    assert x in multiset(out) <==> x in multiset(items);
  }
}
