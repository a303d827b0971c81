/** Random sampling: a Fisher-Yates shuffle of a copy, cut to the asked size.

    The random draws are an input: draws[i] is the index drawn at loop step i, somewhere in 0..i. Every run of draws is as
    likely as any other, so counting runs is counting probabilities. */
module Sampler {
  import opened Wrappers

  /** An element of the result: cutting to a size beyond the array's length leaves holes. */
  datatype Slot<T> = Item(value: T) | Hole

  datatype SampleError = InvalidLength

  /** Array lengths stay below this. */
  const MAX_LENGTH := 0x1_0000_0000

  predicate AreDraws(draws: seq<nat>, n: nat) {
    |draws| == n && forall i :: 0 <= i < n ==> draws[i] <= i
  }

  function Swap<T>(s: seq<T>, i: nat, j: nat): (r: seq<T>)
    requires i < |s| && j < |s|
    ensures |r| == |s|
  {
    s[i := s[j]][j := s[i]]
  }

  /** The shuffle: the last element is swapped with a drawn one and stays; the rest is shuffled in the same way. */
  function Shuffle<T>(s: seq<T>, draws: seq<nat>): (r: seq<T>)
    requires AreDraws(draws, |s|)
    ensures |r| == |s|
    decreases |s|
  {
    if |s| <= 1 then s
    else
      var i := |s| - 1;
      var swapped := Swap(s, i, draws[i]);
      Shuffle(swapped[..i], draws[..i]) + [swapped[i]]
  }

  /** A sequence cut, or extended with holes, to a size. */
  function Resized<T>(s: seq<T>, size: nat): seq<Slot<T>> {
    seq(size, k requires 0 <= k < size => if k < |s| then Item(s[k]) else Hole)
  }

  method SwapElements<T>(a: array<T>, i: nat, j: nat)
    requires i < a.Length && j < a.Length
    modifies a
    ensures a[..] == Swap(old(a[..]), i, j)
  {
    var tmp := a[j];
    a[j] := a[i];
    a[i] := tmp;
  }

  method SampleArray<T>(source: seq<T>, size: int, draws: seq<nat>) returns (r: Result<seq<Slot<T>>, SampleError>)
    requires AreDraws(draws, |source|)
    ensures r == if 0 <= size < MAX_LENGTH then Success(Resized(Shuffle(source, draws), size)) else Failure(InvalidLength)
  {
    var result := new T[|source|](k requires 0 <= k < |source| => source[k]);
    assert result[..] == source;
    var i := result.Length - 1;
    ShuffledFromEnd(source, draws);
    while i >= 1
      invariant -1 <= i < |source|
      invariant ShuffledFrom(result[..], draws, i, source)
    {
      ghost var before := result[..];
      SwapElements(result, i, draws[i]);
      ShuffledFromStep(before, draws, i, source);
      i := i - 1;
    }
    ShuffledFromStart(result[..], draws, i, source);
    if size < 0 || MAX_LENGTH <= size {
      return Failure(InvalidLength);
    }
    return Success(Resized(result[..], size));
  }

  /** The loop between its steps: elements after index i are settled, and shuffling the others finishes the shuffle. */
  ghost predicate ShuffledFrom<T>(result: seq<T>, draws: seq<nat>, i: int, source: seq<T>) {
    && |result| == |source| && AreDraws(draws, |source|) && -1 <= i < |source|
    && Shuffle(result[..i + 1], draws[..i + 1]) + result[i + 1..] == Shuffle(source, draws)
  }

  lemma ShuffledFromEnd<T>(source: seq<T>, draws: seq<nat>)
    requires AreDraws(draws, |source|)
    ensures ShuffledFrom(source, draws, |source| - 1, source)
  {
    assert source[..|source|] == source && draws[..|source|] == draws;
  }

  lemma ShuffledFromStep<T>(before: seq<T>, draws: seq<nat>, i: nat, source: seq<T>)
    requires i >= 1 && ShuffledFrom(before, draws, i, source)
    ensures ShuffledFrom(Swap(before, i, draws[i]), draws, i - 1, source)
  {
    var after := Swap(before, i, draws[i]);
    var part := before[..i + 1];
    var swapped := Swap(part, i, draws[i]);
    assert swapped[..i] == after[..i] && draws[..i + 1][..i] == draws[..i];
    assert after[i..] == [swapped[i]] + before[i + 1..];
    var left := Shuffle(after[..i], draws[..i]);
    assert Shuffle(part, draws[..i + 1]) == left + [swapped[i]];
    assert (left + [swapped[i]]) + before[i + 1..] == left + ([swapped[i]] + before[i + 1..]);
  }

  lemma ShuffledFromStart<T>(result: seq<T>, draws: seq<nat>, i: int, source: seq<T>)
    requires i < 1 && ShuffledFrom(result, draws, i, source)
    ensures result == Shuffle(source, draws)
  {
    assert Shuffle(result[..i + 1], draws[..i + 1]) == result[..i + 1];
  }

  // ----- The shuffle permutes -----

  lemma SwapPermutes<T>(s: seq<T>, i: nat, j: nat)
    requires i < |s| && j < |s|
    ensures multiset(Swap(s, i, j)) == multiset(s)
  {
  }

  lemma SplitLast<A>(s: seq<A>)
    requires s != []
    ensures s == s[..|s| - 1] + [s[|s| - 1]]
  {
  }

  lemma UnfoldShuffle<T>(s: seq<T>, draws: seq<nat>)
    requires AreDraws(draws, |s|) && s != []
    ensures var i := |s| - 1;
      var swapped := Swap(s, i, draws[i]);
      swapped[i] == s[draws[i]] && Shuffle(s, draws) == Shuffle(swapped[..i], draws[..i]) + [swapped[i]]
  {
    var i := |s| - 1;
    SwappedLast(s, i, draws[i]);
    if i == 0 {
      UnfoldShortShuffle(s, draws);
    } else {
      UnfoldLongShuffle(s, draws);
    }
  }

  lemma SwappedLast<T>(s: seq<T>, i: nat, j: nat)
    requires i < |s| && j < |s|
    ensures Swap(s, i, j)[i] == s[j]
  {
  }

  lemma UnfoldLongShuffle<T>(s: seq<T>, draws: seq<nat>)
    requires AreDraws(draws, |s|) && |s| > 1
    ensures var i := |s| - 1; var swapped := Swap(s, i, draws[i]);
      Shuffle(s, draws) == Shuffle(swapped[..i], draws[..i]) + [swapped[i]]
  {
  }

  lemma UnfoldShortShuffle<T>(s: seq<T>, draws: seq<nat>)
    requires AreDraws(draws, |s|) && |s| == 1
    ensures Swap(s, 0, draws[0]) == s && Shuffle(s, draws) == s
    ensures Shuffle(s[..0], draws[..0]) + [s[0]] == s
  {
    assert draws[0] == 0;
    assert s[..0] == [];
  }

  lemma {:induction false} ShufflePermutes<T>(s: seq<T>, draws: seq<nat>)
    requires AreDraws(draws, |s|)
    ensures multiset(Shuffle(s, draws)) == multiset(s)
    decreases |s|
  {
    if s != [] {
      var i := |s| - 1;
      var swapped := Swap(s, i, draws[i]);
      var left, rest := swapped[..i], draws[..i];
      ShufflePermutes(left, rest);
      SwapPermutes(s, i, draws[i]);
      SplitLast(swapped);
      UnfoldShuffle(s, draws);
      assert multiset(left + [swapped[i]]) == multiset(left) + multiset{swapped[i]};
      assert multiset(Shuffle(left, rest) + [swapped[i]]) == multiset(Shuffle(left, rest)) + multiset{swapped[i]};
    }
  }

  lemma {:induction false} CountsOfDistinct<T>(s: seq<T>)
    requires Distinct(s)
    ensures forall x :: multiset(s)[x] == if x in s then 1 else 0
  {
    if s != [] {
      var n := |s| - 1;
      CountsOfDistinct(s[..n]);
      assert s == s[..n] + [s[n]];
      assert s[n] !in s[..n];
    }
  }

  lemma {:induction false} DistinctFromCounts<T>(s: seq<T>)
    requires forall x :: multiset(s)[x] <= 1
    ensures Distinct(s)
  {
    if s != [] {
      var n := |s| - 1;
      assert s == s[..n] + [s[n]];
      assert forall x :: multiset(s[..n])[x] <= multiset(s)[x];
      DistinctFromCounts(s[..n]);
      assert multiset(s)[s[n]] == multiset(s[..n])[s[n]] + 1;
      assert s[n] !in s[..n];
    }
  }

  lemma PermutationOfDistinct<T>(s: seq<T>, p: seq<T>)
    requires Distinct(s) && multiset(p) == multiset(s)
    ensures Distinct(p) && |p| == |s| && forall x :: x in p <==> x in s
  {
    CountsOfDistinct(s);
    DistinctFromCounts(p);
    assert |multiset(p)| == |p| && |multiset(s)| == |s|;
    forall x ensures x in p <==> x in s {
      assert x in p <==> x in multiset(p);
    }
  }

  // ----- The draws of a permutation -----

  function IndexOf<T(==)>(s: seq<T>, x: T): (k: nat)
    requires x in s
    ensures k < |s| && s[k] == x
  {
    if s[0] == x then 0 else 1 + IndexOf(s[1..], x)
  }

  ghost predicate IsPermutation<T>(p: seq<T>, s: seq<T>) {
    Distinct(s) && multiset(p) == multiset(s)
  }

  lemma DropLast<T>(s: seq<T>)
    requires s != []
    ensures multiset(s[..|s| - 1]) == multiset(s) - multiset{s[|s| - 1]}
  {
    assert s == s[..|s| - 1] + [s[|s| - 1]];
  }

  lemma DistinctPrefix<T>(s: seq<T>, n: nat)
    requires Distinct(s) && n <= |s|
    ensures Distinct(s[..n])
  {
  }

  lemma LastIsElement<T>(s: seq<T>, p: seq<T>)
    requires IsPermutation(p, s) && s != []
    ensures |p| == |s| && p[|s| - 1] in s
  {
    PermutationOfDistinct(s, p);
    assert p[|s| - 1] in p;
  }

  lemma SwappedStaysPermutation<T>(s: seq<T>, p: seq<T>, i: nat, j: nat)
    requires IsPermutation(p, s) && i < |s| && j < |s|
    ensures IsPermutation(p, Swap(s, i, j))
  {
    SwapPermutes(s, i, j);
    PermutationOfDistinct(s, Swap(s, i, j));
  }

  lemma RestStaysPermutation<T>(s: seq<T>, p: seq<T>, i: nat)
    requires IsPermutation(p, s) && |p| == |s| == i + 1 && p[i] == s[i]
    ensures IsPermutation(p[..i], s[..i])
  {
    DistinctPrefix(s, i);
    SameLastSameRest(p, s);
  }

  /** The last element is settled by the first swap; what is left is a permutation of what is left. */
  lemma LastDrawn<T>(s: seq<T>, p: seq<T>)
    requires IsPermutation(p, s) && s != []
    ensures |p| == |s| && p[|s| - 1] in s
    ensures var i := |s| - 1; IsPermutation(p[..i], Swap(s, i, IndexOf(s, p[i]))[..i])
  {
    LastIsElement(s, p);
    var i := |s| - 1;
    var j := IndexOf(s, p[i]);
    SwappedLast(s, i, j);
    SwappedStaysPermutation(s, p, i, j);
    RestStaysPermutation(Swap(s, i, j), p, i);
  }

  lemma SameLastSameRest<T>(p: seq<T>, s: seq<T>)
    requires |p| == |s| > 0 && multiset(p) == multiset(s) && p[|p| - 1] == s[|s| - 1]
    ensures multiset(p[..|p| - 1]) == multiset(s[..|s| - 1])
  {
    DropLast(p);
    DropLast(s);
  }

  /** The draws that lead to a permutation. */
  ghost function DrawsOf<T>(s: seq<T>, p: seq<T>): (draws: seq<nat>)
    requires IsPermutation(p, s)
    ensures AreDraws(draws, |s|)
    decreases |s|
  {
    if s == [] then []
    else
      LastDrawn(s, p);
      var i := |s| - 1;
      var j := IndexOf(s, p[i]);
      DrawsOf(Swap(s, i, j)[..i], p[..i]) + [j]
  }

  lemma IndexOfAt<T>(s: seq<T>, k: nat)
    requires Distinct(s) && k < |s|
    ensures IndexOf(s, s[k]) == k
  {
    assert s[IndexOf(s, s[k])] == s[k];
  }

  lemma UnfoldDrawsOf<T>(s: seq<T>, p: seq<T>, j: nat)
    requires IsPermutation(p, s) && s != [] && |p| == |s| && j < |s| && p[|s| - 1] == s[j]
    ensures var i := |s| - 1; var left := Swap(s, i, j)[..i];
      IsPermutation(p[..i], left) && DrawsOf(s, p) == DrawsOf(left, p[..i]) + [j]
  {
    IndexOfAt(s, j);
    LastDrawn(s, p);
  }

  /** Every permutation is produced by some draws. */
  lemma {:induction false} ShuffleOfDraws<T>(s: seq<T>, p: seq<T>)
    requires IsPermutation(p, s)
    ensures Shuffle(s, DrawsOf(s, p)) == p
    decreases |s|
  {
    PermutationOfDistinct(s, p);
    if s != [] {
      var i := |s| - 1;
      assert p[i] in p;
      var j := IndexOf(s, p[i]);
      var left := Swap(s, i, j)[..i];
      UnfoldDrawsOf(s, p, j);
      var draws := DrawsOf(s, p);
      assert draws[i] == j && draws[..i] == DrawsOf(left, p[..i]);
      ShuffleOfDraws(left, p[..i]);
      UnfoldShuffle(s, draws);
      assert p == p[..i] + [p[i]];
    }
  }

  lemma ShuffleEndsInDrawn<T>(s: seq<T>, draws: seq<nat>)
    requires AreDraws(draws, |s|) && s != []
    ensures var i := |s| - 1; var left, p := Swap(s, i, draws[i])[..i], Shuffle(s, draws);
      AreDraws(draws[..i], |left|) && |p| == |s| && p[..i] == Shuffle(left, draws[..i]) && p[i] == s[draws[i]]
  {
    UnfoldShuffle(s, draws);
  }

  lemma DrawsOfShuffleStep<T>(s: seq<T>, draws: seq<nat>)
    requires Distinct(s) && AreDraws(draws, |s|) && s != []
    ensures var i := |s| - 1; var left, p := Swap(s, i, draws[i])[..i], Shuffle(s, draws);
      && IsPermutation(p, s)
      && AreDraws(draws[..i], |left|) && IsPermutation(Shuffle(left, draws[..i]), left)
      && DrawsOf(s, p) == DrawsOf(left, Shuffle(left, draws[..i])) + [draws[i]]
  {
    ShufflePermutes(s, draws);
    ShuffleEndsInDrawn(s, draws);
    UnfoldDrawsOf(s, Shuffle(s, draws), draws[|s| - 1]);
  }

  /** And by no others: the draws can be read back from the permutation. */
  lemma {:induction false} DrawsOfShuffle<T>(s: seq<T>, draws: seq<nat>)
    requires Distinct(s) && AreDraws(draws, |s|)
    ensures IsPermutation(Shuffle(s, draws), s)
    ensures DrawsOf(s, Shuffle(s, draws)) == draws
    decreases |s|
  {
    ShufflePermutes(s, draws);
    if s != [] {
      DrawsOfShuffleStep(s, draws);
      DrawsOfShuffle(Swap(s, |s| - 1, draws[|s| - 1])[..|s| - 1], draws[..|s| - 1]);
      SplitLast(draws);
    }
  }

  // ----- Counting -----

  function Factorial(n: nat): nat {
    if n == 0 then 1 else n * Factorial(n - 1)
  }

  ghost function Extended(runs: set<seq<nat>>, k: nat): set<seq<nat>> {
    set c, j: nat | c in runs && 0 <= j < k :: c + [j]
  }

  /** All runs of draws for an array of n elements. */
  ghost function AllDraws(n: nat): set<seq<nat>> {
    if n == 0 then {[]} else Extended(AllDraws(n - 1), n)
  }

  lemma {:induction false} AllDrawsAreDraws(n: nat, draws: seq<nat>)
    ensures draws in AllDraws(n) <==> AreDraws(draws, n)
  {
    if n > 0 {
      if draws in AllDraws(n) {
        var c, j: nat :| c in AllDraws(n - 1) && 0 <= j < n && draws == c + [j];
        AllDrawsAreDraws(n - 1, c);
      }
      if AreDraws(draws, n) {
        AllDrawsAreDraws(n - 1, draws[..n - 1]);
        SplitLast(draws);
        assert draws[..n - 1] + [draws[n - 1]] in Extended(AllDraws(n - 1), n);
      }
    }
  }

  ghost function Image<A, B>(xs: set<A>, f: A -> B): set<B> {
    set x | x in xs :: f(x)
  }

  ghost predicate OneToOne<A(!new), B>(xs: set<A>, f: A -> B) {
    forall x, y :: x in xs && y in xs && f(x) == f(y) ==> x == y
  }

  /** A one-to-one image has as many elements. */
  lemma {:induction false} ImageSize<A(!new), B>(xs: set<A>, f: A -> B)
    requires OneToOne(xs, f)
    ensures |Image(xs, f)| == |xs|
    decreases |xs|
  {
    if xs == {} {
      assert Image(xs, f) == {};
    } else {
      var x :| x in xs;
      var rest := xs - {x};
      ImageSize(rest, f);
      assert f(x) !in Image(rest, f);
      assert Image(xs, f) == Image(rest, f) + {f(x)};
    }
  }

  ghost function WithLast(j: nat): seq<nat> -> seq<nat> {
    (c: seq<nat>) => c + [j]
  }

  lemma ExtendedStep(runs: set<seq<nat>>, n: nat, j: nat)
    requires forall c :: c in runs ==> |c| == n
    ensures Extended(runs, j + 1) == Extended(runs, j) + Image(runs, WithLast(j))
    ensures Extended(runs, j) !! Image(runs, WithLast(j))
  {
    var last := Image(runs, WithLast(j));
    forall d | d in Extended(runs, j + 1) ensures d in Extended(runs, j) + last {
      var c, i: nat :| c in runs && 0 <= i < j + 1 && d == c + [i];
      if i == j {
        assert d == WithLast(j)(c);
      }
    }
    forall d | d in last ensures d in Extended(runs, j + 1) && |d| == n + 1 && d[n] == j {
      var c :| c in runs && d == WithLast(j)(c);
      assert d == c + [j];
    }
    forall d | d in Extended(runs, j) ensures |d| == n + 1 && d[n] < j {
      var c, i: nat :| c in runs && 0 <= i < j && d == c + [i];
    }
  }

  function Times(a: nat, k: nat): nat {
    if k == 0 then 0 else Times(a, k - 1) + a
  }

  lemma {:induction false} TimesIsProduct(a: nat, k: nat)
    ensures Times(a, k) == a * k
  {
    if k > 0 {
      TimesIsProduct(a, k - 1);
    }
  }

  lemma DisjointSize<A>(a: set<A>, b: set<A>)
    requires a !! b
    ensures |a + b| == |a| + |b|
  {
  }

  lemma ExtendedSizeStep(runs: set<seq<nat>>, n: nat, j: nat)
    requires forall c :: c in runs ==> |c| == n
    ensures |Extended(runs, j + 1)| == |Extended(runs, j)| + |runs|
  {
    ExtendedStep(runs, n, j);
    WithLastOneToOne(runs, n, j);
    ImageSize(runs, WithLast(j));
    DisjointSize(Extended(runs, j), Image(runs, WithLast(j)));
  }

  lemma {:induction false} ExtendedSize(runs: set<seq<nat>>, n: nat, k: nat)
    requires forall c :: c in runs ==> |c| == n
    ensures |Extended(runs, k)| == Times(|runs|, k)
    decreases k
  {
    if k == 0 {
      assert Extended(runs, k) == {};
    } else {
      ExtendedSize(runs, n, k - 1);
      ExtendedSizeStep(runs, n, k - 1);
    }
  }

  lemma WithLastOneToOne(runs: set<seq<nat>>, n: nat, j: nat)
    requires forall c :: c in runs ==> |c| == n
    ensures OneToOne(runs, WithLast(j))
  {
    forall x, y | x in runs && y in runs && WithLast(j)(x) == WithLast(j)(y) ensures x == y {
      assert x == WithLast(j)(x)[..n] && y == WithLast(j)(y)[..n];
    }
  }

  /** There are n! runs of draws. */
  lemma {:induction false} AllDrawsSize(n: nat)
    ensures |AllDraws(n)| == Factorial(n)
  {
    if n > 0 {
      forall c | c in AllDraws(n - 1) ensures |c| == n - 1 {
        AllDrawsAreDraws(n - 1, c);
      }
      AllDrawsSize(n - 1);
      ExtendedSize(AllDraws(n - 1), n - 1, n);
      TimesIsProduct(|AllDraws(n - 1)|, n);
    }
  }

  // ----- Every sample is equally likely -----

  /** An ordered sample drawn without repetition. */
  ghost predicate IsSample<T>(q: seq<T>, s: seq<T>) {
    Distinct(q) && forall x :: x in q ==> x in s
  }

  /** The runs of draws whose shuffle begins with the sample. */
  ghost function DrawsOfSample<T>(s: seq<T>, q: seq<T>): set<seq<nat>> {
    set draws | draws in AllDraws(|s|) && AreDraws(draws, |s|) && q <= Shuffle(s, draws)
  }

  /** The elements left out of a sample. */
  ghost function LeftOut<T>(s: seq<T>, q: seq<T>): seq<T> {
    if s == [] then []
    else (if s[0] in q then [] else [s[0]]) + LeftOut(s[1..], q)
  }

  lemma {:induction false} LeftOutElements<T>(s: seq<T>, q: seq<T>)
    requires Distinct(s)
    ensures forall x :: x in LeftOut(s, q) <==> x in s && x !in q
    ensures Distinct(LeftOut(s, q))
  {
    if s != [] {
      assert Distinct(s[1..]) && s[0] !in s[1..];
      LeftOutElements(s[1..], q);
      assert s == [s[0]] + s[1..];
    }
  }

  /** A sample followed by what it leaves out is a permutation. */
  lemma SampleAndRest<T>(s: seq<T>, q: seq<T>)
    requires Distinct(s) && IsSample(q, s)
    ensures IsPermutation(q + LeftOut(s, q), s)
    ensures Distinct(LeftOut(s, q)) && |LeftOut(s, q)| + |q| == |s|
  {
    var rest := LeftOut(s, q);
    LeftOutElements(s, q);
    CountsOfDistinct(s);
    CountsOfDistinct(q);
    CountsOfDistinct(rest);
    forall x ensures multiset(q + rest)[x] == multiset(s)[x] {
      assert multiset(q + rest)[x] == multiset(q)[x] + multiset(rest)[x];
      assert multiset(q)[x] == (if x in q then 1 else 0);
    }
    SameCountsSameLength(q + rest, s);
  }

  lemma SameCountsSameLength<T>(a: seq<T>, b: seq<T>)
    requires forall x :: multiset(a)[x] == multiset(b)[x]
    ensures multiset(a) == multiset(b) && |a| == |b|
  {
    assert multiset(a) == multiset(b);
    assert |multiset(a)| == |a| && |multiset(b)| == |b|;
  }

  /** The draws that put the sample first and shuffle the rest by the given draws. */
  ghost function DrawsWithRest<T>(s: seq<T>, q: seq<T>, rest: seq<T>, draws: seq<nat>): (r: seq<nat>)
    requires IsPermutation(q + rest, s)
    ensures AreDraws(draws, |rest|) ==>
      AreDraws(r, |s|) && IsPermutation(q + Shuffle(rest, draws), s) && Shuffle(s, r) == q + Shuffle(rest, draws)
  {
    if AreDraws(draws, |rest|) then
      ShufflePermutes(rest, draws);
      ShuffleOfDraws(s, q + Shuffle(rest, draws));
      DrawsOf(s, q + Shuffle(rest, draws))
    else []
  }

  lemma DrawsWithRestInjective<T>(s: seq<T>, q: seq<T>, rest: seq<T>, c: seq<nat>, d: seq<nat>)
    requires IsPermutation(q + rest, s) && Distinct(rest)
    requires AreDraws(c, |rest|) && AreDraws(d, |rest|)
    requires DrawsWithRest(s, q, rest, c) == DrawsWithRest(s, q, rest, d)
    ensures c == d
  {
    assert Shuffle(rest, c) == (q + Shuffle(rest, c))[|q|..];
    assert Shuffle(rest, d) == (q + Shuffle(rest, d))[|q|..];
    DrawsOfShuffle(rest, c);
    DrawsOfShuffle(rest, d);
  }

  lemma SameTail<T>(q: seq<T>, a: seq<T>, b: seq<T>)
    requires multiset(q + a) == multiset(q + b)
    ensures multiset(a) == multiset(b)
  {
    forall x ensures multiset(a)[x] == multiset(b)[x] {
      assert multiset(q + a)[x] == multiset(q)[x] + multiset(a)[x];
      assert multiset(q + b)[x] == multiset(q)[x] + multiset(b)[x];
    }
  }

  /** Every run that begins with the sample arises from draws for the rest. */
  lemma DrawsWithRestOnto<T>(s: seq<T>, q: seq<T>, rest: seq<T>, draws: seq<nat>) returns (d: seq<nat>)
    requires IsPermutation(q + rest, s) && Distinct(rest)
    requires AreDraws(draws, |s|) && q <= Shuffle(s, draws)
    ensures AreDraws(d, |rest|) && DrawsWithRest(s, q, rest, d) == draws
  {
    var p := Shuffle(s, draws);
    var tail := p[|q|..];
    assert p == q + tail;
    DrawsOfShuffle(s, draws);
    SameTail(q, tail, rest);
    d := DrawsOf(rest, tail);
    ShuffleOfDraws(rest, tail);
  }

  /** The sampler is fair: of the |s|! equally likely runs of draws, exactly (|s| - |q|)! yield any given ordered sample q
      of distinct elements. */
  lemma EverySampleIsEquallyLikely<T>(s: seq<T>, q: seq<T>)
    requires Distinct(s) && IsSample(q, s)
    ensures |AllDraws(|s|)| == Factorial(|s|)
    ensures |q| <= |s| && |DrawsOfSample(s, q)| == Factorial(|s| - |q|)
  {
    AllDrawsSize(|s|);
    SampleAndRest(s, q);
    var rest := LeftOut(s, q);
    SampleFiber(s, q, rest);
    RestDrawsOneToOne(s, q, rest);
    ImageSize(AllDraws(|rest|), RestDraws(s, q, rest));
    AllDrawsSize(|rest|);
  }

  ghost function RestDraws<T>(s: seq<T>, q: seq<T>, rest: seq<T>): seq<nat> -> seq<nat>
    requires IsPermutation(q + rest, s)
  {
    (d: seq<nat>) => DrawsWithRest(s, q, rest, d)
  }

  lemma RestDrawsOneToOne<T>(s: seq<T>, q: seq<T>, rest: seq<T>)
    requires IsPermutation(q + rest, s) && Distinct(rest)
    ensures OneToOne(AllDraws(|rest|), RestDraws(s, q, rest))
  {
    forall c, d | c in AllDraws(|rest|) && d in AllDraws(|rest|)
      && RestDraws(s, q, rest)(c) == RestDraws(s, q, rest)(d) ensures c == d
    {
      AllDrawsAreDraws(|rest|, c);
      AllDrawsAreDraws(|rest|, d);
      DrawsWithRestInjective(s, q, rest, c, d);
    }
  }

  lemma SampleFiber<T>(s: seq<T>, q: seq<T>, rest: seq<T>)
    requires IsPermutation(q + rest, s) && Distinct(rest)
    ensures DrawsOfSample(s, q) == Image(AllDraws(|rest|), RestDraws(s, q, rest))
  {
    forall draws ensures draws in DrawsOfSample(s, q) <==> draws in Image(AllDraws(|rest|), RestDraws(s, q, rest)) {
      if draws in DrawsOfSample(s, q) {
        SampleIsImage(s, q, rest, draws);
      }
      if draws in Image(AllDraws(|rest|), RestDraws(s, q, rest)) {
        var d :| d in AllDraws(|rest|) && RestDraws(s, q, rest)(d) == draws;
        ImageIsSample(s, q, rest, d);
      }
    }
  }

  lemma SampleIsImage<T>(s: seq<T>, q: seq<T>, rest: seq<T>, draws: seq<nat>)
    requires IsPermutation(q + rest, s) && Distinct(rest) && draws in DrawsOfSample(s, q)
    ensures draws in Image(AllDraws(|rest|), RestDraws(s, q, rest))
  {
    AllDrawsAreDraws(|s|, draws);
    var d := DrawsWithRestOnto(s, q, rest, draws);
    AllDrawsAreDraws(|rest|, d);
    assert RestDraws(s, q, rest)(d) == draws;
  }

  lemma ImageIsSample<T>(s: seq<T>, q: seq<T>, rest: seq<T>, d: seq<nat>)
    requires IsPermutation(q + rest, s) && Distinct(rest) && d in AllDraws(|rest|)
    ensures RestDraws(s, q, rest)(d) in DrawsOfSample(s, q)
  {
    AllDrawsAreDraws(|rest|, d);
    var draws := DrawsWithRest(s, q, rest, d);
    assert AreDraws(draws, |s|) && Shuffle(s, draws) == q + Shuffle(rest, d);
    BeginsWith(q, Shuffle(rest, d));
    AllDrawsAreDraws(|s|, draws);
  }

  lemma BeginsWith<T>(q: seq<T>, rest: seq<T>)
    ensures q <= q + rest
  {
  }

  // ----- What the sampler returns -----

  /** The sample has the asked size; it holds only elements of the array, each at most once, exactly when the size is no
      larger than the array; otherwise the whole array comes out, followed by holes. */
  lemma SampleIsDrawnWithoutRepetition<T>(s: seq<T>, size: nat, draws: seq<nat>)
    requires Distinct(s) && AreDraws(draws, |s|)
    ensures var r := Resized(Shuffle(s, draws), size);
      && |r| == size
      && ((forall k :: 0 <= k < size ==> r[k].Item?) <==> size <= |s|)
      && (forall k :: 0 <= k < size && r[k].Item? ==> r[k].value in s)
      && (forall j, k :: 0 <= j < k < size && r[j].Item? && r[k].Item? ==> r[j] != r[k])
      && (|s| <= size ==> forall x :: x in s ==> Item(x) in r)
  {
    var p := Shuffle(s, draws);
    ShufflePermutes(s, draws);
    PermutationOfDistinct(s, p);
    SampleOf(s, p, size);
  }

  lemma SampleOf<T>(s: seq<T>, p: seq<T>, size: nat)
    requires Distinct(p) && |p| == |s| && forall x :: x in p <==> x in s
    ensures var r := Resized(p, size);
      && ((forall k :: 0 <= k < size ==> r[k].Item?) <==> size <= |s|)
      && (forall k :: 0 <= k < size && r[k].Item? ==> r[k].value in s)
      && (forall j, k :: 0 <= j < k < size && r[j].Item? && r[k].Item? ==> r[j] != r[k])
      && (|s| <= size ==> forall x :: x in s ==> Item(x) in r)
  {
    if size > |p| {
      assert Resized(p, size)[|p|] == Hole;
    }
    ResizedKeeps(p, size);
  }

  lemma ResizedKeeps<T>(p: seq<T>, size: nat)
    ensures |p| <= size ==> forall x :: x in p ==> Item(x) in Resized(p, size)
  {
    if |p| <= size {
      forall x | x in p ensures Item(x) in Resized(p, size) {
        var k :| 0 <= k < |p| && p[k] == x;
        assert Resized(p, size)[k] == Item(x);
      }
    }
  }
}
