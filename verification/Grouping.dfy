/** Grouping rows into named buckets, as the breakdowns of the backtest do with a dictionary of
    lists, and what a grouping conserves. */
module Grouping {
  import opened Wrappers
  import opened Sequences
  import opened Metrics

  // ---------------------------------------------------------------- order on names

  /** Code-point order of strings. */
  predicate LexLess(a: string, b: string) {
    if b == [] then false
    else if a == [] then true
    else if a[0] != b[0] then a[0] < b[0]
    else LexLess(a[1..], b[1..])
  }

  lemma {:induction false} LexTrichotomy(a: string, b: string)
    ensures !(LexLess(a, b) && LexLess(b, a))
    ensures a == b || LexLess(a, b) || LexLess(b, a)
    ensures a == b ==> !LexLess(a, b)
  {
    if a != [] && b != [] && a[0] == b[0] {
      LexTrichotomy(a[1..], b[1..]);
      assert a == [a[0]] + a[1..] && b == [b[0]] + b[1..];
    }
  }

  lemma {:induction false} LexTransitive(a: string, b: string, c: string)
    requires LexLess(a, b) && LexLess(b, c)
    ensures LexLess(a, c)
  {
    if a != [] && b != [] && c != [] && a[0] == b[0] == c[0] {
      LexTransitive(a[1..], b[1..], c[1..]);
    }
  }

  /** The first position where the strings differ, or the end of the shorter. */
  ghost predicate FirstDifference(a: string, b: string, k: nat) {
    k <= |a| && k <= |b| && a[..k] == b[..k] && (k < |a| && k < |b| ==> a[k] != b[k])
  }

  /** A string comes before another that continues it, or that has the greater character at their first
      difference. */
  lemma {:induction false} LexLessExactly(a: string, b: string) returns (k: nat)
    ensures FirstDifference(a, b, k)
    ensures LexLess(a, b) <==> k < |b| && (k == |a| || a[k] < b[k])
  {
    k := 0;
    if a != [] && b != [] && a[0] == b[0] {
      k := LexLessExactly(a[1..], b[1..]);
      assert a[..k + 1] == [a[0]] + a[1..][..k] && b[..k + 1] == [b[0]] + b[1..][..k];
      k := k + 1;
    }
  }

  /** Bigger buckets first, then by name. */
  predicate BucketBefore(countA: int, nameA: string, countB: int, nameB: string) {
    countA > countB || (countA == countB && LexLess(nameA, nameB))
  }

  lemma BucketBeforeTotal(countA: int, nameA: string, countB: int, nameB: string)
    ensures !(BucketBefore(countA, nameA, countB, nameB) && BucketBefore(countB, nameB, countA, nameA))
    ensures nameA != nameB ==> BucketBefore(countA, nameA, countB, nameB) || BucketBefore(countB, nameB, countA, nameA)
  {
    LexTrichotomy(nameA, nameB);
  }

  lemma BucketBeforeTransitive(countA: int, nameA: string, countB: int, nameB: string, countC: int, nameC: string)
    requires BucketBefore(countA, nameA, countB, nameB) && BucketBefore(countB, nameB, countC, nameC)
    ensures BucketBefore(countA, nameA, countC, nameC)
  {
    if countA == countB == countC {
      LexTransitive(nameA, nameB, nameC);
    }
  }

  // ---------------------------------------------------------------- buckets

  /** Bucket names in the sequence of their first row. */
  function Buckets<T>(rows: seq<T>, key: T -> string): seq<string> {
    if rows == [] then []
    else
      var front := Buckets(rows[..|rows| - 1], key);
      var name := key(rows[|rows| - 1]);
      if name in front then front else front + [name]
  }

  function InBucket<T>(key: T -> string, name: string): T -> bool {
    (row: T) => key(row) == name
  }

  lemma {:induction false} BucketsAreDistinctNames<T>(rows: seq<T>, key: T -> string)
    ensures Distinct(Buckets(rows, key))
    ensures forall i :: 0 <= i < |rows| ==> key(rows[i]) in Buckets(rows, key)
    ensures forall name :: name in Buckets(rows, key) ==> exists i :: 0 <= i < |rows| && key(rows[i]) == name
  {
    if rows != [] {
      var front := rows[..|rows| - 1];
      BucketsAreDistinctNames(front, key);
      forall i | 0 <= i < |rows| ensures key(rows[i]) in Buckets(rows, key) {
        if i < |front| { assert front[i] == rows[i]; }
      }
      forall name | name in Buckets(rows, key) ensures exists i :: 0 <= i < |rows| && key(rows[i]) == name {
        if name in Buckets(front, key) {
          var i :| 0 <= i < |front| && key(front[i]) == name;
          assert key(rows[i]) == name;
        }
      }
    }
  }

  lemma FilterSnoc<T>(rows: seq<T>, row: T, keep: T -> bool)
    ensures Filter(rows + [row], keep) == Filter(rows, keep) + if keep(row) then [row] else []
  {
    FilterAppend(rows, [row], keep);
    assert [row][1..] == [];
  }

  /** The dictionary of lists: names in the sequence of their first row, rows in theirs. */
  method GroupBy<T>(rows: seq<T>, key: T -> string) returns (order: seq<string>, groups: map<string, seq<T>>)
    ensures order == Buckets(rows, key)
    ensures forall name :: name in groups <==> name in order
    ensures forall name :: name in groups ==> groups[name] == Filter(rows, InBucket(key, name))
  {
    hide Filter;
    order, groups := [], map[];
    NoRowsNoBuckets(key);
    for i := 0 to |rows|
      invariant order == Buckets(rows[..i], key)
      invariant forall name :: name in groups <==> name in order
      invariant forall name :: name in groups ==> groups[name] == Filter(rows[..i], InBucket(key, name))
    {
      var row := rows[i];
      var bucket := key(row);
      assert rows[..i + 1] == rows[..i] + [row] && rows[..i + 1][..i] == rows[..i];
      forall name ensures Filter(rows[..i + 1], InBucket(key, name)) ==
                          Filter(rows[..i], InBucket(key, name)) + if bucket == name then [row] else [] {
        FilterSnoc(rows[..i], row, InBucket(key, name));
      }
      if bucket !in groups {
        BucketsAreDistinctNames(rows[..i], key);
        NoRowsYet(rows[..i], key, bucket);
        order := order + [bucket];
        groups := groups[bucket := []];
      }
      groups := groups[bucket := groups[bucket] + [row]];
    }
    assert rows[..|rows|] == rows;
  }

  lemma NoRowsNoBuckets<T>(key: T -> string)
    ensures Buckets([], key) == []
  {
  }

  lemma {:induction false} NoRowsYet<T>(rows: seq<T>, key: T -> string, name: string)
    requires forall i :: 0 <= i < |rows| ==> key(rows[i]) != name
    ensures Filter(rows, InBucket(key, name)) == []
  {
    if rows != [] {
      assert forall i :: 0 <= i < |rows[1..]| ==> rows[1..][i] == rows[i + 1];
      NoRowsYet(rows[1..], key, name);
    }
  }

  // ---------------------------------------------------------------- what grouping conserves

  /** The sum of f over a bucket. */
  function SumIn<T>(rows: seq<T>, key: T -> string, f: T -> real): string -> real {
    (name: string) => SumOf(Filter(rows, InBucket(key, name)), f)
  }

  function OnlyAt(name: string, v: real): string -> real {
    (n: string) => if n == name then v else 0.0
  }

  lemma {:induction false} OnlyAtSum(names: seq<string>, name: string, v: real)
    requires Distinct(names)
    ensures SumOf(names, OnlyAt(name, v)) == if name in names then v else 0.0
  {
    if names != [] {
      assert Distinct(names[1..]) by {
        assert forall i :: 0 <= i < |names[1..]| ==> names[1..][i] == names[i + 1];
      }
      OnlyAtSum(names[1..], name, v);
      assert names == [names[0]] + names[1..];
      if name in names[1..] {
        var i :| 0 <= i < |names[1..]| && names[1..][i] == name;
        assert names[i + 1] == name;
      }
    }
  }

  lemma {:induction false} SumAdds(names: seq<string>, f: string -> real, g: string -> real, h: string -> real)
    requires forall n :: h(n) == f(n) + g(n)
    ensures SumOf(names, h) == SumOf(names, f) + SumOf(names, g)
  {
    if names != [] { SumAdds(names[1..], f, g, h); }
  }

  /** Bucket sums add up to the sum over all rows. */
  lemma {:induction false} BucketSumsAddUp<T>(rows: seq<T>, key: T -> string, names: seq<string>, f: T -> real)
    requires Distinct(names) && forall i :: 0 <= i < |rows| ==> key(rows[i]) in names
    ensures SumOf(names, SumIn(rows, key, f)) == SumOf(rows, f)
  {
    if rows == [] {
      SumZero(names, SumIn(rows, key, f));
    } else {
      var rest, first := rows[1..], OnlyAt(key(rows[0]), f(rows[0]));
      assert forall i :: 0 <= i < |rest| ==> rest[i] == rows[i + 1];
      BucketSumsAddUp(rest, key, names, f);
      forall n: string ensures SumIn(rows, key, f)(n) == SumIn(rest, key, f)(n) + first(n) {
        FirstRowSum(rows, key, f, n);
      }
      SumAdds(names, SumIn(rest, key, f), first, SumIn(rows, key, f));
      OnlyAtSum(names, key(rows[0]), f(rows[0]));
    }
  }

  lemma FirstRowSum<T>(rows: seq<T>, key: T -> string, f: T -> real, n: string)
    requires rows != []
    ensures SumIn(rows, key, f)(n) == SumIn(rows[1..], key, f)(n) + OnlyAt(key(rows[0]), f(rows[0]))(n)
  {
    var rest := Filter(rows[1..], InBucket(key, n));
    if key(rows[0]) == n {
      assert ([rows[0]] + rest)[1..] == rest;
    } else {
      assert [] + rest == rest;
    }
  }

  /** Reordering the rows reorders the bucket names. */
  lemma BucketsPermute<T>(rows: seq<T>, again: seq<T>, key: T -> string)
    requires multiset(rows) == multiset(again)
    ensures multiset(Buckets(rows, key)) == multiset(Buckets(again, key))
  {
    var a, b := Buckets(rows, key), Buckets(again, key);
    BucketsAreDistinctNames(rows, key);
    BucketsAreDistinctNames(again, key);
    SameMembers(rows, again);
    forall name ensures name in a <==> name in b {
      if name in a {
        var i :| 0 <= i < |rows| && key(rows[i]) == name;
        assert rows[i] in rows;
        var j :| 0 <= j < |again| && again[j] == rows[i];
      }
      if name in b {
        var i :| 0 <= i < |again| && key(again[i]) == name;
        assert again[i] in again;
        var j :| 0 <= j < |rows| && rows[j] == again[i];
      }
    }
    forall name ensures multiset(a)[name] == multiset(b)[name] {
      DistinctMultiplicity(a, name);
      DistinctMultiplicity(b, name);
    }
  }

  lemma MapMiddle<S, T>(front: seq<S>, x: S, back: seq<S>, f: S -> T)
    ensures multiset(MapSeq(front + ([x] + back), f)) == multiset(MapSeq(front + back, f)) + multiset{f(x)}
  {
    hide MapSeq;
    MapAppend(front, [x] + back, f);
    MapAppend([x], back, f);
    MapAppend(front, back, f);
    MapSingle(x, f);
    MiddleMultiset(MapSeq(front, f), f(x), MapSeq(back, f));
  }

  lemma MapSplit<S, T>(ys: seq<S>, j: nat, f: S -> T)
    requires j < |ys|
    ensures multiset(MapSeq(ys, f)) == multiset(MapSeq(ys[..j] + ys[j + 1..], f)) + multiset{f(ys[j])}
  {
    hide MapSeq;
    SplitAt(ys, j);
    MapMiddle(ys[..j], ys[j], ys[j + 1..], f);
  }

  lemma MapSingle<S, T>(x: S, f: S -> T)
    ensures MapSeq([x], f) == [f(x)]
  {
  }

  lemma MapHead<S, T>(xs: seq<S>, f: S -> T)
    requires xs != []
    ensures multiset(MapSeq(xs, f)) == multiset(MapSeq(xs[1..], f)) + multiset{f(xs[0])}
  {
    hide MapSeq;
    var front: seq<S> := [];
    assert xs == front + ([xs[0]] + xs[1..]) && front + xs[1..] == xs[1..];
    MapMiddle(front, xs[0], xs[1..], f);
  }

  lemma {:induction false} MapPermutes<S, T>(xs: seq<S>, ys: seq<S>, f: S -> T)
    requires multiset(xs) == multiset(ys)
    ensures multiset(MapSeq(xs, f)) == multiset(MapSeq(ys, f))
  {
    hide MapSeq;
    if xs == [] {
      assert |multiset(ys)| == 0;
      assert xs == ys;
    } else {
      var j := PlaceOfFirst(xs, ys);
      MapPermutes(xs[1..], ys[..j] + ys[j + 1..], f);
      MapSplit(ys, j, f);
      MapHead(xs, f);
    }
  }

  lemma {:induction false} MapCongruence<S, T>(xs: seq<S>, f: S -> T, g: S -> T)
    requires forall x: S :: f(x) == g(x)
    ensures MapSeq(xs, f) == MapSeq(xs, g)
  {
  }

  lemma {:induction false} SumOfMap<S, T>(xs: seq<S>, f: S -> T, g: T -> real, h: S -> real)
    requires forall x :: x in xs ==> h(x) == g(f(x))
    ensures SumOf(MapSeq(xs, f), g) == SumOf(xs, h)
  {
    if xs != [] { SumOfMap(xs[1..], f, g, h); }
  }

  // ---------------------------------------------------------------- one entry per bucket, sorted

  /** Entries with different names are strictly ordered by size and name. */
  lemma NamedEntriesOrder<E>(entries: seq<E>, size: E -> int, name: E -> string, before: (E, E) -> bool)
    requires forall a, b :: before(a, b) <==> BucketBefore(size(a), name(a), size(b), name(b))
    requires forall a, b :: a in entries && b in entries && name(a) == name(b) ==> a == b
    ensures StrictTotalOn(entries, before)
  {
    forall a, b | a in entries && b in entries
      ensures !(before(a, b) && before(b, a)) && (a != b ==> before(a, b) || before(b, a))
    {
      BucketBeforeTotal(size(a), name(a), size(b), name(b));
    }
    forall a, b, c | a in entries && b in entries && c in entries && before(a, b) && before(b, c) ensures before(a, c) {
      BucketBeforeTransitive(size(a), name(a), size(b), name(b), size(c), name(c));
    }
  }

  /** However the entries of distinct buckets are sorted, their names stay distinct. */
  lemma NamesStayDistinct<E>(names: seq<string>, entryOf: string -> E, name: E -> string, sorted: seq<E>)
    requires Distinct(names) && (forall n :: name(entryOf(n)) == n)
    requires multiset(sorted) == multiset(MapSeq(names, entryOf))
    ensures Distinct(MapSeq(sorted, name))
  {
    var entries := MapSeq(names, entryOf);
    MapPermutes(sorted, entries, name);
    assert MapSeq(entries, name) == names;
    DistinctPermutes(names, MapSeq(sorted, name));
  }

  /** The same entries for a reordering of the names sort to the same sequence. */
  lemma SortedEntriesPermute<E>(names: seq<string>, again: seq<string>, f: string -> E, g: string -> E,
                                before: (E, E) -> bool)
    requires multiset(names) == multiset(again) && (forall n: string :: f(n) == g(n))
    requires StrictTotalOn(MapSeq(names, f), before)
    ensures SortBy(MapSeq(names, f), before) == SortBy(MapSeq(again, g), before)
  {
    hide MapSeq, SortBy, StrictTotalOn;
    MapPermutes(names, again, f);
    MapCongruence(again, f, g);
    SortByPermutation(MapSeq(names, f), MapSeq(again, g), before);
  }

  // ---------------------------------------------------------------- averages recombine

  /** A bucket's reported average, weighted by its samples. */
  function WeightIn<T>(rows: seq<T>, key: T -> string, value: T -> Option<real>): string -> real {
    (name: string) =>
      var part := Filter(rows, InBucket(key, name));
      Weighted(Samples(part, value), AvgReturn(part, value))
  }

  function KnownAsOne<T>(value: T -> Option<real>): T -> real {
    (row: T) => if value(row).Some? then 1.0 else 0.0
  }

  lemma {:induction false} SamplesAreOnes<T>(rows: seq<T>, value: T -> Option<real>)
    ensures SumOf(rows, KnownAsOne(value)) == Samples(rows, value) as real
  {
    if rows != [] { SamplesAreOnes(rows[1..], value); }
  }

  lemma {:induction false} SumsNear(names: seq<string>, f: string -> real, g: string -> real, n: string -> real)
    requires forall x :: x in names ==> -0.00005 * n(x) <= f(x) - g(x) <= 0.00005 * n(x)
    ensures -0.00005 * SumOf(names, n) <= SumOf(names, f) - SumOf(names, g) <= 0.00005 * SumOf(names, n)
  {
    if names != [] {
      assert names[0] in names;
      SumsNear(names[1..], f, g, n);
    }
  }

  lemma BucketAverageNearTotal<T>(rows: seq<T>, key: T -> string, value: T -> Option<real>, name: string)
    ensures var total, ones := SumIn(rows, key, ValueOf(value))(name), SumIn(rows, key, KnownAsOne(value))(name);
            -0.00005 * ones <= WeightIn(rows, key, value)(name) - total <= 0.00005 * ones
  {
    hide AvgReturn, SumOf, Weighted, Samples;
    SamplesAreOnes(Filter(rows, InBucket(key, name)), value);
    AverageNearTotal(Filter(rows, InBucket(key, name)), value);
  }

  /** Quantized bucket averages, weighted by their samples, recombine to the quantized average of all
      rows within one grid step of 0.0001 a sample. */
  lemma AveragesRecombine<T>(rows: seq<T>, key: T -> string, value: T -> Option<real>, names: seq<string>)
    requires Distinct(names) && forall i :: 0 <= i < |rows| ==> key(rows[i]) in names
    ensures var n := Samples(rows, value);
            -0.0001 * (n as real) <= SumOf(names, WeightIn(rows, key, value)) - Weighted(n, AvgReturn(rows, value))
            <= 0.0001 * (n as real)
  {
    hide WeightIn, SumIn, SumOf, Samples, KnownAsOne, ValueOf, Weighted, AvgReturn;
    var totals, ones := SumIn(rows, key, ValueOf(value)), SumIn(rows, key, KnownAsOne(value));
    BucketSumsAddUp(rows, key, names, ValueOf(value));
    BucketSumsAddUp(rows, key, names, KnownAsOne(value));
    SamplesAreOnes(rows, value);
    forall name | name in names
      ensures -0.00005 * ones(name) <= WeightIn(rows, key, value)(name) - totals(name) <= 0.00005 * ones(name)
    {
      BucketAverageNearTotal(rows, key, value, name);
    }
    SumsNear(names, WeightIn(rows, key, value), totals, ones);
    AverageNearTotal(rows, value);
  }
}
