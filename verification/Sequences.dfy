/** Filtering, summing, counting and sorting of table rows, and what a reordering
    of the rows leaves unchanged. */
module Sequences {

  function Filter<T>(xs: seq<T>, keep: T -> bool): seq<T> {
    if xs == [] then []
    else (if keep(xs[0]) then [xs[0]] else []) + Filter(xs[1..], keep)
  }

  function MapSeq<S, T>(xs: seq<S>, f: S -> T): (ys: seq<T>)
    ensures |ys| == |xs| && forall i :: 0 <= i < |xs| ==> ys[i] == f(xs[i])
  {
    if xs == [] then [] else [f(xs[0])] + MapSeq(xs[1..], f)
  }

  function SumOf<T>(xs: seq<T>, f: T -> real): real {
    if xs == [] then 0.0 else f(xs[0]) + SumOf(xs[1..], f)
  }

  function CountOf<T>(xs: seq<T>, p: T -> bool): nat {
    if xs == [] then 0 else (if p(xs[0]) then 1 else 0) + CountOf(xs[1..], p)
  }

  function SumInt<T>(xs: seq<T>, f: T -> int): int {
    if xs == [] then 0 else f(xs[0]) + SumInt(xs[1..], f)
  }

  // ---------------------------------------------------------------- appending

  lemma {:induction false} FilterAppend<T>(xs: seq<T>, ys: seq<T>, keep: T -> bool)
    ensures Filter(xs + ys, keep) == Filter(xs, keep) + Filter(ys, keep)
  {
    if xs == [] {
      assert xs + ys == ys;
    } else {
      assert (xs + ys)[1..] == xs[1..] + ys;
      FilterAppend(xs[1..], ys, keep);
      var head := if keep(xs[0]) then [xs[0]] else [];
      assert head + (Filter(xs[1..], keep) + Filter(ys, keep)) == (head + Filter(xs[1..], keep)) + Filter(ys, keep);
    }
  }

  lemma {:induction false} SumOfAppend<T>(xs: seq<T>, ys: seq<T>, f: T -> real)
    ensures SumOf(xs + ys, f) == SumOf(xs, f) + SumOf(ys, f)
  {
    if xs == [] {
      assert xs + ys == ys;
    } else {
      assert (xs + ys)[1..] == xs[1..] + ys;
      SumOfAppend(xs[1..], ys, f);
    }
  }

  lemma {:induction false} SumIntAppend<T>(xs: seq<T>, ys: seq<T>, f: T -> int)
    ensures SumInt(xs + ys, f) == SumInt(xs, f) + SumInt(ys, f)
  {
    if xs == [] {
      assert xs + ys == ys;
    } else {
      assert (xs + ys)[1..] == xs[1..] + ys;
      SumIntAppend(xs[1..], ys, f);
    }
  }

  lemma {:induction false} CountOfAppend<T>(xs: seq<T>, ys: seq<T>, p: T -> bool)
    ensures CountOf(xs + ys, p) == CountOf(xs, p) + CountOf(ys, p)
  {
    if xs == [] {
      assert xs + ys == ys;
    } else {
      assert (xs + ys)[1..] == xs[1..] + ys;
      CountOfAppend(xs[1..], ys, p);
    }
  }

  lemma {:induction false} MapAppend<S, T>(xs: seq<S>, ys: seq<S>, f: S -> T)
    ensures MapSeq(xs + ys, f) == MapSeq(xs, f) + MapSeq(ys, f)
  {
  }

  lemma SumOfUpdate<T>(xs: seq<T>, i: nat, x: T, f: T -> real)
    requires i < |xs|
    ensures SumOf(xs[i := x], f) == SumOf(xs, f) - f(xs[i]) + f(x)
  {
    var front, back := xs[..i], xs[i + 1..];
    assert xs == front + ([xs[i]] + back) && xs[i := x] == front + ([x] + back);
    SumOfAppend(front, [xs[i]] + back, f);
    SumOfAppend(front, [x] + back, f);
    assert ([xs[i]] + back)[1..] == back && ([x] + back)[1..] == back;
  }

  lemma {:induction false} SumNonNegative<T>(xs: seq<T>, f: T -> real)
    requires forall x :: x in xs ==> f(x) >= 0.0
    ensures SumOf(xs, f) >= 0.0
  {
    if xs != [] { SumNonNegative(xs[1..], f); }
  }

  lemma {:induction false} SumZero<T>(xs: seq<T>, f: T -> real)
    requires forall x :: x in xs ==> f(x) == 0.0
    ensures SumOf(xs, f) == 0.0
  {
    if xs != [] { SumZero(xs[1..], f); }
  }

  // ---------------------------------------------------------------- filtering

  lemma {:induction false} FilterMembers<T>(xs: seq<T>, keep: T -> bool)
    ensures forall x :: x in Filter(xs, keep) <==> x in xs && keep(x)
  {
    if xs != [] {
      FilterMembers(xs[1..], keep);
      assert xs == [xs[0]] + xs[1..];
    }
  }

  lemma EmptyOrInhabited<T>(xs: seq<T>)
    ensures xs == [] || exists x :: x in xs
  {
    assert xs == [] || xs[0] in xs;
  }

  lemma {:induction false} CountIsFilterLength<T>(xs: seq<T>, p: T -> bool)
    ensures CountOf(xs, p) == |Filter(xs, p)|
  {
    if xs != [] { CountIsFilterLength(xs[1..], p); }
  }

  lemma {:induction false} FilterCongruence<T>(xs: seq<T>, p: T -> bool, q: T -> bool)
    requires forall x :: x in xs ==> p(x) == q(x)
    ensures Filter(xs, p) == Filter(xs, q)
    ensures CountOf(xs, p) == CountOf(xs, q)
  {
    if xs != [] { FilterCongruence(xs[1..], p, q); }
  }

  lemma {:induction false} SumCongruence<T>(xs: seq<T>, f: T -> real, g: T -> real)
    requires forall x :: x in xs ==> f(x) == g(x)
    ensures SumOf(xs, f) == SumOf(xs, g)
  {
    if xs != [] { SumCongruence(xs[1..], f, g); }
  }

  /** Filtering twice is filtering by the conjunction. */
  lemma {:induction false} FilterFilter<T>(xs: seq<T>, p: T -> bool, q: T -> bool, both: T -> bool)
    requires forall x :: x in xs ==> both(x) == (p(x) && q(x))
    ensures Filter(Filter(xs, p), q) == Filter(xs, both)
  {
    if xs != [] {
      FilterFilter(xs[1..], p, q, both);
      FilterAppend(if p(xs[0]) then [xs[0]] else [], Filter(xs[1..], p), q);
    }
  }

  lemma {:induction false} CountAll<T>(xs: seq<T>, p: T -> bool)
    requires forall x :: x in xs ==> p(x)
    ensures CountOf(xs, p) == |xs|
  {
    if xs != [] { CountAll(xs[1..], p); }
  }

  lemma {:induction false} ConstantSum<T>(xs: seq<T>, f: T -> real, c: real)
    requires forall x :: x in xs ==> f(x) == c
    ensures SumOf(xs, f) == c * (|xs| as real)
  {
    if xs != [] {
      ConstantSum(xs[1..], f, c);
      assert |xs| as real == |xs[1..]| as real + 1.0;
    }
  }

  /** A positive count has a last witness, no earlier than the count allows. */
  lemma {:induction false} LastWitness<T>(xs: seq<T>, p: T -> bool) returns (j: nat)
    requires CountOf(xs, p) > 0
    ensures j < |xs| && p(xs[j]) && CountOf(xs, p) <= j + 1
  {
    if CountOf(xs[1..], p) > 0 {
      j := LastWitness(xs[1..], p);
      j := j + 1;
    } else {
      j := 0;
    }
  }

  /** More than m witnesses include two that are at least m positions apart. */
  lemma {:induction false} FarWitnesses<T>(xs: seq<T>, p: T -> bool, m: nat) returns (i: nat, j: nat)
    requires CountOf(xs, p) > m
    ensures i + m <= j < |xs| && p(xs[i]) && p(xs[j])
  {
    if p(xs[0]) {
      i := 0;
      j := LastWitness(xs, p);
    } else {
      i, j := FarWitnesses(xs[1..], p, m);
      i, j := i + 1, j + 1;
    }
  }

  // ---------------------------------------------------------------- reordering

  lemma {:induction false} RemoveAt<T>(ys: seq<T>, j: nat)
    requires j < |ys|
    ensures multiset(ys[..j] + ys[j + 1..]) == multiset(ys) - multiset{ys[j]}
  {
    assert ys == ys[..j] + [ys[j]] + ys[j + 1..];
  }

  lemma TailMultiset<T>(xs: seq<T>)
    requires xs != []
    ensures multiset(xs[1..]) == multiset(xs) - multiset{xs[0]}
  {
    assert xs == [xs[0]] + xs[1..];
  }

  lemma SumMiddle<T>(front: seq<T>, x: T, back: seq<T>, f: T -> real)
    ensures SumOf(front + ([x] + back), f) == f(x) + SumOf(front + back, f)
  {
    SumOfAppend(front, [x] + back, f);
    SumOfAppend(front, back, f);
    assert ([x] + back)[1..] == back;
  }

  /** A reordering of the rows leaves every sum unchanged. */
  lemma {:induction false} SumOfPermutation<T>(xs: seq<T>, ys: seq<T>, f: T -> real)
    requires multiset(xs) == multiset(ys)
    ensures SumOf(xs, f) == SumOf(ys, f)
  {
    if xs == [] {
      assert |multiset(ys)| == 0;
    } else {
      var j := PlaceOfFirst(xs, ys);
      SumOfPermutation(xs[1..], ys[..j] + ys[j + 1..], f);
      SplitAt(ys, j);
      SumMiddle(ys[..j], ys[j], ys[j + 1..], f);
    }
  }

  /** The first row's place in a reordering, and the reordering of the rest. */
  lemma PlaceOfFirst<T>(xs: seq<T>, ys: seq<T>) returns (j: nat)
    requires xs != [] && multiset(xs) == multiset(ys)
    ensures j < |ys| && ys[j] == xs[0]
    ensures multiset(xs[1..]) == multiset(ys[..j] + ys[j + 1..])
  {
    assert xs[0] in multiset(ys);
    j :| 0 <= j < |ys| && ys[j] == xs[0];
    RemoveAt(ys, j);
    TailMultiset(xs);
  }

  /** The rows that a filter keeps from a reordering are a reordering of those it keeps. */
  lemma {:induction false} FilterPermutation<T>(xs: seq<T>, ys: seq<T>, p: T -> bool)
    requires multiset(xs) == multiset(ys)
    ensures multiset(Filter(xs, p)) == multiset(Filter(ys, p))
  {
    if xs == [] {
      assert |multiset(ys)| == 0;
    } else {
      var j := PlaceOfFirst(xs, ys);
      FilterPermutation(xs[1..], ys[..j] + ys[j + 1..], p);
      FilterSplit(ys, j, p);
    }
  }

  lemma MiddleMultiset<T>(front: seq<T>, x: T, back: seq<T>)
    ensures multiset(front + ([x] + back)) == multiset(front + back) + multiset{x}
  {
  }

  lemma SplitAt<T>(ys: seq<T>, j: nat)
    requires j < |ys|
    ensures ys == ys[..j] + ([ys[j]] + ys[j + 1..])
  {
  }

  lemma FilterMiddle<T>(front: seq<T>, x: T, back: seq<T>, p: T -> bool)
    ensures multiset(Filter(front + ([x] + back), p)) ==
            multiset(Filter(front + back, p)) + (if p(x) then multiset{x} else multiset{})
  {
    hide Filter;
    FilterAppend(front, [x] + back, p);
    FilterAppend([x], back, p);
    FilterAppend(front, back, p);
    FilterSingle(x, p);
    if p(x) {
      MiddleMultiset(Filter(front, p), x, Filter(back, p));
    } else {
      assert [] + Filter(back, p) == Filter(back, p);
    }
  }

  lemma FilterSingle<T>(x: T, p: T -> bool)
    ensures Filter([x], p) == if p(x) then [x] else []
  {
    assert [x][1..] == [];
  }

  lemma FilterSplit<T>(ys: seq<T>, j: nat, p: T -> bool)
    requires j < |ys|
    ensures multiset(Filter(ys, p)) ==
            multiset(Filter(ys[..j] + ys[j + 1..], p)) + (if p(ys[j]) then multiset{ys[j]} else multiset{})
  {
    hide Filter;
    SplitAt(ys, j);
    FilterMiddle(ys[..j], ys[j], ys[j + 1..], p);
  }

  lemma CountPermutation<T>(xs: seq<T>, ys: seq<T>, p: T -> bool)
    requires multiset(xs) == multiset(ys)
    ensures CountOf(xs, p) == CountOf(ys, p)
  {
    FilterPermutation(xs, ys, p);
    CountIsFilterLength(xs, p);
    CountIsFilterLength(ys, p);
    assert |multiset(Filter(xs, p))| == |multiset(Filter(ys, p))|;
  }

  // ---------------------------------------------------------------- no repeats

  ghost predicate Distinct<T>(xs: seq<T>) {
    forall i, j :: 0 <= i < j < |xs| ==> xs[i] != xs[j]
  }

  lemma DistinctMultiplicity<T>(xs: seq<T>, x: T)
    requires Distinct(xs)
    ensures multiset(xs)[x] == if x in xs then 1 else 0
    decreases |xs|
  {
    if xs != [] {
      var rest := xs[1..];
      assert Distinct(rest) by { assert forall i :: 0 <= i < |rest| ==> rest[i] == xs[i + 1]; }
      DistinctMultiplicity(rest, x);
      assert xs == [xs[0]] + rest;
      assert multiset(xs) == multiset{xs[0]} + multiset(rest);
      if x in rest {
        var i :| 0 <= i < |rest| && rest[i] == x;
        assert xs[i + 1] == x;
      }
    }
  }

  lemma TwiceInMultiset<T>(xs: seq<T>, i: nat, j: nat)
    requires i < j < |xs|
    ensures xs[i] == xs[j] ==> multiset(xs)[xs[i]] >= 2
  {
    assert xs == xs[..i] + [xs[i]] + xs[i + 1..j] + [xs[j]] + xs[j + 1..];
  }

  /** A reordering of distinct rows is distinct. */
  lemma DistinctPermutes<T>(xs: seq<T>, ys: seq<T>)
    requires Distinct(xs) && multiset(xs) == multiset(ys)
    ensures Distinct(ys)
  {
    forall i, j | 0 <= i < j < |ys| ensures ys[i] != ys[j] {
      DistinctMultiplicity(xs, ys[i]);
      TwiceInMultiset(ys, i, j);
    }
  }

  // ---------------------------------------------------------------- sorting

  /** What a sort by a strict order leaves: no row stands after one it precedes. */
  ghost predicate Ordered<T>(xs: seq<T>, before: (T, T) -> bool) {
    forall i, j :: 0 <= i < j < |xs| ==> !before(xs[j], xs[i])
  }

  /** `before` totally and strictly orders the rows of `xs`. */
  ghost predicate StrictTotalOn<T>(xs: seq<T>, before: (T, T) -> bool) {
    && (forall a, b :: a in xs && b in xs ==> !(before(a, b) && before(b, a)))
    && (forall a, b :: a in xs && b in xs && a != b ==> before(a, b) || before(b, a))
    && (forall a, b, c :: a in xs && b in xs && c in xs && before(a, b) && before(b, c) ==> before(a, c))
  }

  /** Rows that tie under `before` keep their order, as in a stable sort. */
  function Insert<T>(x: T, xs: seq<T>, before: (T, T) -> bool): seq<T> {
    if xs == [] then [x]
    else if before(xs[0], x) then [xs[0]] + Insert(x, xs[1..], before)
    else [x] + xs
  }

  function SortBy<T>(xs: seq<T>, before: (T, T) -> bool): seq<T> {
    if xs == [] then [] else Insert(xs[0], SortBy(xs[1..], before), before)
  }

  lemma {:induction false} InsertMultiset<T>(x: T, xs: seq<T>, before: (T, T) -> bool)
    ensures multiset(Insert(x, xs, before)) == multiset(xs) + multiset{x}
  {
    if xs != [] {
      assert xs == [xs[0]] + xs[1..];
      if before(xs[0], x) { InsertMultiset(x, xs[1..], before); }
    }
  }

  /** Putting a row that precedes none of an ordered sequence in front of it. */
  lemma FirstStaysOrdered<T>(x: T, xs: seq<T>, before: (T, T) -> bool)
    requires Ordered(xs, before) && forall y :: y in xs ==> !before(y, x)
    ensures Ordered([x] + xs, before)
  {
    var ys := [x] + xs;
    forall i, j | 0 <= i < j < |ys| ensures !before(ys[j], ys[i]) {
      assert ys[j] == xs[j - 1] && xs[j - 1] in xs;
      if i > 0 {
        assert ys[i] == xs[i - 1];
      }
    }
  }

  lemma InsertMembers<T>(x: T, xs: seq<T>, before: (T, T) -> bool)
    ensures forall y :: y in Insert(x, xs, before) ==> y == x || y in xs
  {
    InsertMultiset(x, xs, before);
    forall y | y in Insert(x, xs, before) ensures y == x || y in xs {
      assert y in multiset(Insert(x, xs, before));
    }
  }

  lemma {:induction false} InsertOrdered<T>(x: T, xs: seq<T>, before: (T, T) -> bool)
    requires StrictTotalOn([x] + xs, before) && Ordered(xs, before)
    ensures Ordered(Insert(x, xs, before), before)
  {
    if xs == [] {
      FirstStaysOrdered(x, xs, before);
    } else {
      assert x in [x] + xs && forall y :: y in xs ==> y in [x] + xs;
      var first, rest := xs[0], xs[1..];
      forall y | y in rest ensures !before(y, first) && y in xs {
        var i :| 0 <= i < |rest| && rest[i] == y;
        assert xs[i + 1] == y;
      }
      if before(first, x) {
        assert forall y :: y in [x] + rest ==> y in [x] + xs;
        InsertOrdered(x, rest, before);
        InsertMembers(x, rest, before);
        FirstStaysOrdered(first, Insert(x, rest, before), before);
      } else {
        assert xs == [first] + rest;
        forall y | y in xs ensures !before(y, x) {
          assert y == first || y in rest;
        }
        FirstStaysOrdered(x, xs, before);
      }
    }
  }

  lemma {:induction false} SortByMultiset<T>(xs: seq<T>, before: (T, T) -> bool)
    ensures multiset(SortBy(xs, before)) == multiset(xs)
    ensures |SortBy(xs, before)| == |xs|
  {
    if xs != [] {
      SortByMultiset(xs[1..], before);
      InsertMultiset(xs[0], SortBy(xs[1..], before), before);
      assert xs == [xs[0]] + xs[1..];
      assert |SortBy(xs, before)| == |multiset(SortBy(xs, before))|;
    }
  }

  lemma {:induction false} SortByOrdered<T>(xs: seq<T>, before: (T, T) -> bool)
    requires StrictTotalOn(xs, before)
    ensures Ordered(SortBy(xs, before), before)
  {
    if xs != [] {
      SortByOrdered(xs[1..], before);
      SortByMultiset(xs[1..], before);
      var rest := SortBy(xs[1..], before);
      forall y | y in [xs[0]] + rest ensures y in xs {
        if y in rest { assert y in multiset(rest); }
      }
      InsertOrdered(xs[0], rest, before);
    }
  }

  /** Under a strict total order the sorted sequence is determined by the rows alone. */
  lemma {:induction false} OrderedUnique<T>(xs: seq<T>, ys: seq<T>, before: (T, T) -> bool)
    requires multiset(xs) == multiset(ys)
    requires StrictTotalOn(xs, before)
    requires Ordered(xs, before) && Ordered(ys, before)
    ensures xs == ys
  {
    assert |xs| == |multiset(xs)| == |multiset(ys)| == |ys|;
    if xs != [] {
      assert xs[0] in multiset(ys) && ys[0] in multiset(xs);
      var i :| 0 <= i < |xs| && xs[i] == ys[0];
      var j :| 0 <= j < |ys| && ys[j] == xs[0];
      assert xs[0] == ys[0];
      TailMultiset(xs);
      TailMultiset(ys);
      OrderedUnique(xs[1..], ys[1..], before);
    }
  }

  lemma SameMembers<T>(xs: seq<T>, ys: seq<T>)
    requires multiset(xs) == multiset(ys)
    ensures forall x :: x in xs <==> x in ys
  {
    forall x ensures x in xs <==> x in ys {
      assert x in xs <==> x in multiset(xs);
      assert x in ys <==> x in multiset(ys);
    }
  }

  lemma StrictTotalTransfer<T>(xs: seq<T>, ys: seq<T>, before: (T, T) -> bool)
    requires StrictTotalOn(xs, before)
    requires forall y :: y in ys ==> y in xs
    ensures StrictTotalOn(ys, before)
  {
  }

  lemma SortByTotal<T>(xs: seq<T>, before: (T, T) -> bool)
    requires StrictTotalOn(xs, before)
    ensures multiset(SortBy(xs, before)) == multiset(xs)
    ensures Ordered(SortBy(xs, before), before)
    ensures StrictTotalOn(SortBy(xs, before), before)
  {
    var ys := SortBy(xs, before);
    SortByMultiset(xs, before);
    SortByOrdered(xs, before);
    TotalOnPermutation(xs, ys, before);
  }

  lemma TotalOnPermutation<T>(xs: seq<T>, ys: seq<T>, before: (T, T) -> bool)
    requires multiset(xs) == multiset(ys)
    requires StrictTotalOn(xs, before)
    ensures StrictTotalOn(ys, before)
  {
    SameMembers(xs, ys);
    StrictTotalTransfer(xs, ys, before);
  }

  /** Sorting by a strict total order gives the same sequence for every ordering of the rows. */
  lemma SortByPermutation<T>(xs: seq<T>, ys: seq<T>, before: (T, T) -> bool)
    requires multiset(xs) == multiset(ys)
    requires StrictTotalOn(xs, before)
    ensures SortBy(xs, before) == SortBy(ys, before)
  {
    TotalOnPermutation(xs, ys, before);
    SortByTotal(xs, before);
    SortByTotal(ys, before);
    OrderedUnique(SortBy(xs, before), SortBy(ys, before), before);
  }
}
