/** What the regime breakdown of a backtest conserves: it partitions the BUY rows, ignores their
    order, recombines to the overall average, and carries the cost deduction exactly. */
module RegimeBreakdownLaws {
  import opened Wrappers
  import opened Sequences
  import opened CostModel
  import opened Metrics
  import opened Grouping
  import opened BacktestEngine

  function EntrySize(): RegimeEntry -> real {
    (e: RegimeEntry) => e.buyCount as real
  }

  function EntryName(): RegimeEntry -> string {
    (e: RegimeEntry) => e.regime
  }

  function One(): EvaluatedRow -> real {
    (r: EvaluatedRow) => 1.0
  }

  /** The entries before sorting. */
  function Entries(rows: seq<EvaluatedRow>): seq<RegimeEntry> {
    MapSeq(Buckets(BuyRows(rows), BucketOf()), EntryOf(BuyRows(rows)))
  }

  function EntryCount(): RegimeEntry -> int {
    (e: RegimeEntry) => e.buyCount
  }

  lemma EntriesAreTotallyOrdered(rows: seq<EvaluatedRow>)
    ensures StrictTotalOn(Entries(rows), LargestRegime())
  {
    hide BuyRows, Buckets, Filter, AvgReturn, WinRate, BucketBefore;
    var entries, buys := Entries(rows), BuyRows(rows);
    forall a, b | a in entries && b in entries && EntryName()(a) == EntryName()(b) ensures a == b {
      assert a == EntryOf(buys)(a.regime) && b == EntryOf(buys)(b.regime);
    }
    NamedEntriesOrder(entries, EntryCount(), EntryName(), LargestRegime());
  }

  lemma BreakdownSorts(rows: seq<EvaluatedRow>)
    ensures multiset(RegimeBreakdown(rows)) == multiset(Entries(rows))
    ensures Ordered(RegimeBreakdown(rows), LargestRegime())
  {
    EntriesAreTotallyOrdered(rows);
    SortByTotal(Entries(rows), LargestRegime());
  }

  lemma EntrySizeIsBucketSize(buys: seq<EvaluatedRow>, name: string)
    ensures SumIn(buys, BucketOf(), One())(name) == EntrySize()(EntryOf(buys)(name))
  {
    ConstantSum(Filter(buys, InBucket(BucketOf(), name)), One(), 1.0);
  }

  lemma BuyCountsAddUp(rows: seq<EvaluatedRow>)
    ensures SumOf(Entries(rows), EntrySize()) == |BuyRows(rows)| as real
  {
    hide EntryOf, EntrySize, One, SumIn, Buckets, SumOf;
    var buys := BuyRows(rows);
    var names := Buckets(buys, BucketOf());
    BucketsAreDistinctNames(buys, BucketOf());
    forall name | name in names ensures SumIn(buys, BucketOf(), One())(name) == EntrySize()(EntryOf(buys)(name)) {
      EntrySizeIsBucketSize(buys, name);
    }
    SumOfMap(names, EntryOf(buys), EntrySize(), SumIn(buys, BucketOf(), One()));
    BucketSumsAddUp(buys, BucketOf(), names, One());
    AllOnes(buys);
  }

  lemma AllOnes(rows: seq<EvaluatedRow>)
    ensures SumOf(rows, One()) == |rows| as real
  {
    ConstantSum(rows, One(), 1.0);
  }

  lemma EntriesAreNotEmpty(rows: seq<EvaluatedRow>, e: RegimeEntry)
    requires e in Entries(rows)
    ensures e.buyCount > 0
  {
    hide BuyRows, Buckets, AvgReturn, WinRate, Filter, BucketOf;
    var buys := BuyRows(rows);
    var names := Buckets(buys, BucketOf());
    var k :| 0 <= k < |names| && EntryOf(buys)(names[k]) == e;
    BucketIsNotEmpty(buys, names, k);
  }

  lemma BucketIsNotEmpty(buys: seq<EvaluatedRow>, names: seq<string>, k: nat)
    requires names == Buckets(buys, BucketOf()) && k < |names|
    ensures |Filter(buys, InBucket(BucketOf(), names[k]))| > 0
  {
    hide Filter, Buckets;
    BucketsAreDistinctNames(buys, BucketOf());
    assert names[k] in names;
    var i :| 0 <= i < |buys| && BucketOf()(buys[i]) == names[k];
    FilterMembers(buys, InBucket(BucketOf(), names[k]));
    assert buys[i] in Filter(buys, InBucket(BucketOf(), names[k]));
  }

  /** The buckets are distinct and not empty, and their buy counts add up to the BUY rows. */
  lemma BreakdownPartitionsBuys(rows: seq<EvaluatedRow>)
    ensures forall i, j :: 0 <= i < j < |RegimeBreakdown(rows)| ==>
              RegimeBreakdown(rows)[i].regime != RegimeBreakdown(rows)[j].regime
    ensures forall e :: e in RegimeBreakdown(rows) ==> e.buyCount > 0
    ensures SumOf(RegimeBreakdown(rows), EntrySize()) == |BuyRows(rows)| as real
  {
    hide RegimeBreakdown, Entries, SumOf, EntrySize;
    BreakdownSorts(rows);
    SumOfPermutation(RegimeBreakdown(rows), Entries(rows), EntrySize());
    BuyCountsAddUp(rows);
    BreakdownNamesDistinct(rows);
    SameMembers(RegimeBreakdown(rows), Entries(rows));
    forall e | e in RegimeBreakdown(rows) ensures e.buyCount > 0 {
      EntriesAreNotEmpty(rows, e);
    }
  }

  lemma BreakdownNamesDistinct(rows: seq<EvaluatedRow>)
    ensures forall i, j :: 0 <= i < j < |RegimeBreakdown(rows)| ==>
              RegimeBreakdown(rows)[i].regime != RegimeBreakdown(rows)[j].regime
  {
    hide RegimeBreakdown, Buckets, BuyRows, Filter, AvgReturn, WinRate;
    var buys, breakdown := BuyRows(rows), RegimeBreakdown(rows);
    BreakdownSorts(rows);
    BucketsAreDistinctNames(buys, BucketOf());
    NamesStayDistinct(Buckets(buys, BucketOf()), EntryOf(buys), EntryName(), breakdown);
    var names := MapSeq(breakdown, EntryName());
    forall i, j | 0 <= i < j < |breakdown| ensures breakdown[i].regime != breakdown[j].regime {
      assert names[i] == breakdown[i].regime && names[j] == breakdown[j].regime;
    }
  }

  lemma EntriesPermute(rows: seq<EvaluatedRow>, again: seq<EvaluatedRow>, name: string)
    requires multiset(rows) == multiset(again)
    ensures EntryOf(BuyRows(rows))(name) == EntryOf(BuyRows(again))(name)
  {
    FilterPermutation(rows, again, IsAction(BuySignal));
    FilterPermutation(BuyRows(rows), BuyRows(again), InBucket(BucketOf(), name));
    var a, b := Filter(BuyRows(rows), InBucket(BucketOf(), name)), Filter(BuyRows(again), InBucket(BucketOf(), name));
    assert |multiset(a)| == |multiset(b)|;
    MetricsPermute(a, b, Horizon(5));
    MetricsPermute(a, b, CostAdjusted());
  }

  /** Every reordering of the evaluated rows gives the identical sorted breakdown. */
  lemma BreakdownIgnoresRowOrder(rows: seq<EvaluatedRow>, again: seq<EvaluatedRow>)
    requires multiset(rows) == multiset(again)
    ensures RegimeBreakdown(rows) == RegimeBreakdown(again)
  {
    hide Buckets, EntryOf, SortBy;
    var buys, buys' := BuyRows(rows), BuyRows(again);
    FilterPermutation(rows, again, IsAction(BuySignal));
    BucketsPermute(buys, buys', BucketOf());
    forall name: string ensures EntryOf(buys)(name) == EntryOf(buys')(name) {
      EntriesPermute(rows, again, name);
    }
    EntriesAreTotallyOrdered(rows);
    SortedEntriesPermute(Buckets(buys, BucketOf()), Buckets(buys', BucketOf()),
                         EntryOf(buys), EntryOf(buys'), LargestRegime());
  }

  // ---------------------------------------------------------------- recombination

  /** An entry's reported average, weighted by its returns on file. */
  function EntryWeight(buys: seq<EvaluatedRow>): RegimeEntry -> real {
    (e: RegimeEntry) => Weighted(Samples(Filter(buys, InBucket(BucketOf(), e.regime)), Horizon(5)), e.avgReturn5)
  }

  lemma WeightsOfEntries(rows: seq<EvaluatedRow>)
    ensures SumOf(Entries(rows), EntryWeight(BuyRows(rows)))
            == SumOf(Buckets(BuyRows(rows), BucketOf()), WeightIn(BuyRows(rows), BucketOf(), Horizon(5)))
  {
    hide SumOf, AvgReturn, Samples, Buckets, Weighted;
    var buys := BuyRows(rows);
    SumOfMap(Buckets(buys, BucketOf()), EntryOf(buys), EntryWeight(buys), WeightIn(buys, BucketOf(), Horizon(5)));
  }

  /** The quantized bucket averages, weighted by their sample counts, recombine to the quantized
      overall 5-day average within one grid step of 0.0001. */
  lemma BreakdownRecombines(rows: seq<EvaluatedRow>)
    ensures var buys := BuyRows(rows);
            var n, average := Samples(buys, Horizon(5)), AvgReturn(buys, Horizon(5));
            -0.0001 * (n as real) <= SumOf(RegimeBreakdown(rows), EntryWeight(buys)) - Weighted(n, average)
            <= 0.0001 * (n as real)
  {
    hide RegimeBreakdown, Entries, SumOf, EntryWeight, WeightIn, Samples, AvgReturn, Buckets, Weighted, BuyRows;
    var buys := BuyRows(rows);
    BreakdownSorts(rows);
    SumOfPermutation(RegimeBreakdown(rows), Entries(rows), EntryWeight(buys));
    WeightsOfEntries(rows);
    BucketsAreDistinctNames(buys, BucketOf());
    AveragesRecombine(buys, BucketOf(), Horizon(5), Buckets(buys, BucketOf()));
  }

  // ---------------------------------------------------------------- the cost deduction

  lemma DefaultCostIsThirtyThreeBasisPoints()
    ensures TotalCost(DEFAULT_COSTS) * 100.0 == 0.33
  {
  }

  lemma EvaluatedBuysAreShifted(ctx: Context, recs: seq<Recommendation>, part: seq<EvaluatedRow>)
    requires ctx.costs == DEFAULT_COSTS
    requires forall r :: r in part ==> r in MapSeq(recs, Evaluator(ctx)) && r.action == BuySignal
    ensures ShiftedBy(part, Horizon(5), CostAdjusted(), 0.33)
  {
    DefaultCostIsThirtyThreeBasisPoints();
    forall i | 0 <= i < |part|
      ensures if Horizon(5)(part[i]).Some? then CostAdjusted()(part[i]) == Some(Horizon(5)(part[i]).value - 0.33)
              else CostAdjusted()(part[i]).None?
    {
      assert part[i] in part;
      var k :| 0 <= k < |recs| && part[i] == Evaluate(ctx, recs[k]);
    }
  }

  lemma EntryOfMember(rows: seq<EvaluatedRow>, e: RegimeEntry)
    requires e in RegimeBreakdown(rows)
    ensures e == EntryOf(BuyRows(rows))(e.regime)
  {
    hide RegimeBreakdown, BuyRows, Filter, AvgReturn, WinRate, Buckets;
    BreakdownSorts(rows);
    SameMembers(RegimeBreakdown(rows), Entries(rows));
  }

  /** With the default costs, the reported cost-adjusted 5-day average is the reported average less
      exactly 0.3300, overall and in every bucket, and the two are absent together. */
  lemma CostAdjustmentIsExact(ctx: Context, recs: seq<Recommendation>)
    requires ctx.costs == DEFAULT_COSTS
    ensures var rows := MapSeq(recs, Evaluator(ctx));
            var raw, adjusted := AvgReturn(BuyRows(rows), Horizon(5)), AvgReturn(BuyRows(rows), CostAdjusted());
            && (adjusted.Some? <==> raw.Some?)
            && (raw.Some? ==> adjusted.value == raw.value - 0.33)
            && forall e :: e in RegimeBreakdown(rows) ==>
                 && (e.costAdjustedAvg5.Some? <==> e.avgReturn5.Some?)
                 && (e.avgReturn5.Some? ==> e.costAdjustedAvg5.value == e.avgReturn5.value - 0.33)
  {
    hide RegimeBreakdown, Filter, AvgReturn, WinRate, MapSeq;
    var rows := MapSeq(recs, Evaluator(ctx));
    var buys := BuyRows(rows);
    FilterMembers(rows, IsAction(BuySignal));
    EvaluatedBuysAreShifted(ctx, recs, buys);
    CostShiftsQuantizedAverage(buys, Horizon(5), CostAdjusted());
    forall e | e in RegimeBreakdown(rows)
      ensures e.costAdjustedAvg5.Some? <==> e.avgReturn5.Some?
      ensures e.avgReturn5.Some? ==> e.costAdjustedAvg5.value == e.avgReturn5.value - 0.33
    {
      var part := Filter(buys, InBucket(BucketOf(), e.regime));
      EntryOfMember(rows, e);
      FilterMembers(buys, InBucket(BucketOf(), e.regime));
      EvaluatedBuysAreShifted(ctx, recs, part);
      CostShiftsQuantizedAverage(part, Horizon(5), CostAdjusted());
    }
  }
}
