/** The sector view of a strategy comparison (app/backtest/multi_strategy_runner.py and
    app/backtest/regime_breakdown.py), and its agreement with the engine it is computed beside. */
module SectorBreakdown {
  import opened Wrappers
  import opened Sequences
  import opened Metrics
  import opened Grouping
  import opened BacktestEngine

  datatype Stock = Stock(symbol: string, sector: Option<string>)

  /** A row of the query that also joins the stock. */
  datatype SectorRow = SectorRow(rec: Recommendation, sector: Option<string>)

  datatype Triple = Triple(sector: Option<string>, action: Action, return5: Option<real>)

  const UNKNOWN_SECTOR_BUCKET := "UNKNOWN"

  // ---------------------------------------------------------------- aggregation

  function SectorOf(): Triple -> string {
    (t: Triple) => if t.sector.Some? && t.sector.value != "" then t.sector.value else UNKNOWN_SECTOR_BUCKET
  }

  function IsBuy(): Triple -> bool {
    (t: Triple) => t.action == BuySignal
  }

  function Return5(): Triple -> Option<real> {
    (t: Triple) => t.return5
  }

  datatype SectorEntry = SectorEntry(
    sector: string, signalCount: nat, buyCount: nat, winRate5: Option<real>, avgReturn5: Option<real>)

  function SectorEntryFrom(name: string, rows: seq<Triple>): SectorEntry {
    var buys := Filter(rows, IsBuy());
    SectorEntry(name, |rows|, |buys|, WinRate(buys, Return5()), AvgReturn(buys, Return5()))
  }

  function SectorEntryOf(triples: seq<Triple>): string -> SectorEntry {
    (name: string) => SectorEntryFrom(name, Filter(triples, InBucket(SectorOf(), name)))
  }

  function LargestSector(): (SectorEntry, SectorEntry) -> bool {
    (a: SectorEntry, b: SectorEntry) => BucketBefore(a.buyCount, a.sector, b.buyCount, b.sector)
  }

  function SectorEntries(triples: seq<Triple>): seq<SectorEntry> {
    MapSeq(Buckets(triples, SectorOf()), SectorEntryOf(triples))
  }

  function AggregateSectors(triples: seq<Triple>): seq<SectorEntry> {
    SortBy(SectorEntries(triples), LargestSector())
  }

  method MakeSectorEntry(name: string, rows: seq<Triple>) returns (e: SectorEntry)
    ensures e == SectorEntryFrom(name, rows)
  {
    var buys := Filter(rows, IsBuy());
    var win, avg, _ := ComputeMetrics(buys, Return5());
    e := SectorEntry(name, |rows|, |buys|, win, avg);
  }

  method AggregateSectorBreakdown(triples: seq<Triple>) returns (entries: seq<SectorEntry>)
    ensures entries == AggregateSectors(triples)
  {
    hide SectorEntryFrom, Buckets, SortBy, Filter;
    var order, bySector := GroupBy(triples, SectorOf());
    entries := [];
    for i := 0 to |order|
      invariant |entries| == i && forall k :: 0 <= k < i ==> entries[k] == SectorEntryOf(triples)(order[k])
    {
      assert order[i] in order;
      var entry := MakeSectorEntry(order[i], bySector[order[i]]);
      entries := entries + [entry];
    }
    assert entries == MapSeq(order, SectorEntryOf(triples));
    entries := SortBy(entries, LargestSector());
  }

  // ---------------------------------------------------------------- order and row order

  function SectorCount(): SectorEntry -> int {
    (e: SectorEntry) => e.buyCount
  }

  function SectorName(): SectorEntry -> string {
    (e: SectorEntry) => e.sector
  }

  lemma SectorsAreTotallyOrdered(triples: seq<Triple>)
    ensures StrictTotalOn(SectorEntries(triples), LargestSector())
  {
    hide Buckets, Filter, AvgReturn, WinRate, BucketBefore;
    var entries := SectorEntries(triples);
    forall a, b | a in entries && b in entries && SectorName()(a) == SectorName()(b) ensures a == b {
      assert a == SectorEntryOf(triples)(a.sector) && b == SectorEntryOf(triples)(b.sector);
    }
    NamedEntriesOrder(entries, SectorCount(), SectorName(), LargestSector());
  }

  /** The sectors are distinct, those with most BUYs first, ties by name. */
  lemma SectorsAreSorted(triples: seq<Triple>)
    ensures Ordered(AggregateSectors(triples), LargestSector())
    ensures Distinct(MapSeq(AggregateSectors(triples), SectorName()))
  {
    hide Buckets, Filter, AvgReturn, WinRate, SortBy;
    SectorsAreTotallyOrdered(triples);
    SortByTotal(SectorEntries(triples), LargestSector());
    BucketsAreDistinctNames(triples, SectorOf());
    NamesStayDistinct(Buckets(triples, SectorOf()), SectorEntryOf(triples), SectorName(), AggregateSectors(triples));
  }

  lemma SectorEntriesPermute(triples: seq<Triple>, again: seq<Triple>, name: string)
    requires multiset(triples) == multiset(again)
    ensures SectorEntryOf(triples)(name) == SectorEntryOf(again)(name)
  {
    hide Filter, AvgReturn, WinRate;
    FilterPermutation(triples, again, InBucket(SectorOf(), name));
    var a, b := Filter(triples, InBucket(SectorOf(), name)), Filter(again, InBucket(SectorOf(), name));
    FilterPermutation(a, b, IsBuy());
    assert |multiset(a)| == |multiset(b)| && |multiset(Filter(a, IsBuy()))| == |multiset(Filter(b, IsBuy()))|;
    MetricsPermute(Filter(a, IsBuy()), Filter(b, IsBuy()), Return5());
  }

  /** Every reordering of the triples gives the identical sector list. */
  lemma SectorsIgnoreRowOrder(triples: seq<Triple>, again: seq<Triple>)
    requires multiset(triples) == multiset(again)
    ensures AggregateSectors(triples) == AggregateSectors(again)
  {
    hide Buckets, SectorEntryOf, SortBy;
    BucketsPermute(triples, again, SectorOf());
    forall name: string ensures SectorEntryOf(triples)(name) == SectorEntryOf(again)(name) {
      SectorEntriesPermute(triples, again, name);
    }
    SectorsAreTotallyOrdered(triples);
    SortedEntriesPermute(Buckets(triples, SectorOf()), Buckets(again, SectorOf()),
                         SectorEntryOf(triples), SectorEntryOf(again), LargestSector());
  }

  // ---------------------------------------------------------------- recombination

  function BuysOfSector(triples: seq<Triple>, name: string): seq<Triple> {
    Filter(Filter(triples, InBucket(SectorOf(), name)), IsBuy())
  }

  /** A sector's reported average, weighted by its known 5-day BUY returns. */
  function SectorWeight(triples: seq<Triple>): SectorEntry -> real {
    (e: SectorEntry) => Weighted(Samples(BuysOfSector(triples, e.sector), Return5()), e.avgReturn5)
  }

  function IsBuyIn(name: string): Triple -> bool {
    (t: Triple) => IsBuy()(t) && InBucket(SectorOf(), name)(t)
  }

  lemma BuysThenSector(triples: seq<Triple>, name: string)
    ensures BuysOfSector(triples, name) == Filter(Filter(triples, IsBuy()), InBucket(SectorOf(), name))
  {
    FilterFilter(triples, InBucket(SectorOf(), name), IsBuy(), IsBuyIn(name));
    FilterFilter(triples, IsBuy(), InBucket(SectorOf(), name), IsBuyIn(name));
  }

  lemma WeightsOfSectors(triples: seq<Triple>)
    ensures SumOf(SectorEntries(triples), SectorWeight(triples))
            == SumOf(Buckets(triples, SectorOf()), WeightIn(Filter(triples, IsBuy()), SectorOf(), Return5()))
  {
    hide SumOf, AvgReturn, WinRate, Samples, Buckets, Weighted, Filter;
    var buys := Filter(triples, IsBuy());
    forall name: string
      ensures SectorWeight(triples)(SectorEntryOf(triples)(name)) == WeightIn(buys, SectorOf(), Return5())(name)
    {
      BuysThenSector(triples, name);
    }
    SumOfMap(Buckets(triples, SectorOf()), SectorEntryOf(triples), SectorWeight(triples),
             WeightIn(buys, SectorOf(), Return5()));
  }

  /** The quantized sector averages, weighted by their samples, recombine to the quantized average of
      all BUYs within one grid step of 0.0001 a sample. */
  lemma SectorsRecombine(triples: seq<Triple>)
    ensures var buys := Filter(triples, IsBuy());
            var n, average := Samples(buys, Return5()), AvgReturn(buys, Return5());
            -0.0001 * (n as real) <= SumOf(AggregateSectors(triples), SectorWeight(triples)) - Weighted(n, average)
            <= 0.0001 * (n as real)
  {
    hide SumOf, SectorWeight, WeightIn, Samples, AvgReturn, Buckets, Weighted, Filter, SectorEntries, SortBy;
    var buys := Filter(triples, IsBuy());
    SortByMultiset(SectorEntries(triples), LargestSector());
    SumOfPermutation(AggregateSectors(triples), SectorEntries(triples), SectorWeight(triples));
    WeightsOfSectors(triples);
    BucketsAreDistinctNames(triples, SectorOf());
    FilterMembers(triples, IsBuy());
    forall i | 0 <= i < |buys| ensures SectorOf()(buys[i]) in Buckets(triples, SectorOf()) {
      assert buys[i] in buys;
      var k :| 0 <= k < |triples| && triples[k] == buys[i];
    }
    AveragesRecombine(buys, SectorOf(), Return5(), Buckets(triples, SectorOf()));
  }

  // ---------------------------------------------------------------- the joined query

  function HasSymbol(symbol: string): Stock -> bool {
    (s: Stock) => s.symbol == symbol
  }

  function WithStock(r: Recommendation): Stock -> SectorRow {
    (s: Stock) => SectorRow(r, s.sector)
  }

  /** The outer join of one recommendation with the stocks table. */
  function JoinOne(r: Recommendation, stocks: seq<Stock>): seq<SectorRow> {
    var matches := Filter(stocks, HasSymbol(r.snapshot.symbol));
    if matches == [] then [SectorRow(r, None)] else MapSeq(matches, WithStock(r))
  }

  function Join(recs: seq<Recommendation>, stocks: seq<Stock>): seq<SectorRow> {
    if recs == [] then [] else JoinOne(recs[0], stocks) + Join(recs[1..], stocks)
  }

  function RecOf(): SectorRow -> Recommendation {
    (row: SectorRow) => row.rec
  }

  function JoinedNewestFirst(): (SectorRow, SectorRow) -> bool {
    (a: SectorRow, b: SectorRow) => NewestFirst()(a.rec, b.rec)
  }

  ghost predicate IsSectorSelection(rows: seq<SectorRow>, recs: seq<Recommendation>, stocks: seq<Stock>,
                                    start: Option<int>, end: Option<int>, limit: Option<int>) {
    exists full: seq<SectorRow> ::
      && multiset(full) == multiset(Join(Filter(recs, InRange(start, end)), stocks))
      && Ordered(full, JoinedNewestFirst())
      && rows == Limited(full, limit)
  }

  /** The unique index on stock symbols. */
  ghost predicate SymbolsUnique(stocks: seq<Stock>) {
    forall i, j :: 0 <= i < j < |stocks| ==> stocks[i].symbol != stocks[j].symbol
  }

  lemma {:induction false} AtMostOneMatch(stocks: seq<Stock>, symbol: string)
    requires SymbolsUnique(stocks)
    ensures |Filter(stocks, HasSymbol(symbol))| <= 1
  {
    if stocks != [] {
      var rest := stocks[1..];
      assert SymbolsUnique(rest) by { assert forall i :: 0 <= i < |rest| ==> rest[i] == stocks[i + 1]; }
      AtMostOneMatch(rest, symbol);
      if stocks[0].symbol == symbol {
        FilterMembers(rest, HasSymbol(symbol));
        EmptyOrInhabited(Filter(rest, HasSymbol(symbol)));
        assert forall s :: s in rest ==> s.symbol != symbol by {
          forall s | s in rest ensures s.symbol != symbol {
            var i :| 0 <= i < |rest| && rest[i] == s;
            assert stocks[i + 1] == s;
          }
        }
      }
    }
  }

  /** With unique symbols the join adds a sector to each recommendation and no rows. */
  lemma {:induction false} JoinKeepsRecommendations(recs: seq<Recommendation>, stocks: seq<Stock>)
    requires SymbolsUnique(stocks)
    ensures MapSeq(Join(recs, stocks), RecOf()) == recs
  {
    if recs != [] {
      JoinKeepsRecommendations(recs[1..], stocks);
      AtMostOneMatch(stocks, recs[0].snapshot.symbol);
      var one := JoinOne(recs[0], stocks);
      assert |one| == 1 && one[0].rec == recs[0];
      MapAppend(one, Join(recs[1..], stocks), RecOf());
      assert MapSeq(one, RecOf()) == [recs[0]] by { assert one[1..] == []; }
    }
  }

  lemma {:induction false} MapOrdered(rows: seq<SectorRow>)
    requires Ordered(rows, JoinedNewestFirst())
    ensures Ordered(MapSeq(rows, RecOf()), NewestFirst())
  {
    var recs := MapSeq(rows, RecOf());
    assert forall i :: 0 <= i < |rows| ==> recs[i] == rows[i].rec;
    forall i, j | 0 <= i < j < |recs| ensures !NewestFirst()(recs[j], recs[i]) {
      assert !JoinedNewestFirst()(rows[j], rows[i]);
    }
  }

  lemma MapLimited(full: seq<SectorRow>, limit: Option<int>)
    ensures MapSeq(Limited(full, limit), RecOf()) == Limited(MapSeq(full, RecOf()), limit)
  {
  }

  /** Forgetting the sectors of the joined query leaves a result of the engine's query. */
  lemma SectorSelectionProjects(recs: seq<Recommendation>, stocks: seq<Stock>, joined: seq<SectorRow>,
                                start: Option<int>, end: Option<int>, limit: Option<int>)
    requires SymbolsUnique(stocks)
    requires IsSectorSelection(joined, recs, stocks, start, end, limit)
    ensures IsSelection(MapSeq(joined, RecOf()), recs, start, end, limit)
  {
    hide Join, Filter, Limited, Ordered, SymbolsUnique, MapSeq;
    var kept := Filter(recs, InRange(start, end));
    var full: seq<SectorRow> :|
      multiset(full) == multiset(Join(kept, stocks)) && Ordered(full, JoinedNewestFirst())
      && joined == Limited(full, limit);
    MapPermutes(full, Join(kept, stocks), RecOf());
    JoinKeepsRecommendations(kept, stocks);
    MapOrdered(full);
    MapLimited(full, limit);
    var all := MapSeq(full, RecOf());
    assert multiset(all) == multiset(kept) && Ordered(all, NewestFirst())
           && MapSeq(joined, RecOf()) == Limited(all, limit);
  }

  /** Both limited queries select the same recommendations, because (run_id, rank) and the stock
      symbol are unique. */
  lemma BothQueriesSelectTheSame(recs: seq<Recommendation>, stocks: seq<Stock>, rows: seq<Recommendation>,
                                 joined: seq<SectorRow>,
                                 start: Option<int>, end: Option<int>, limit: Option<int>)
    requires RanksUnique(recs) && SymbolsUnique(stocks)
    requires IsSelection(rows, recs, start, end, limit)
    requires IsSectorSelection(joined, recs, stocks, start, end, limit)
    ensures MapSeq(joined, RecOf()) == rows
  {
    hide IsSelection, IsSectorSelection, RanksUnique, SymbolsUnique, MapSeq;
    SectorSelectionProjects(recs, stocks, joined, start, end, limit);
    SelectionIsDetermined(recs, MapSeq(joined, RecOf()), rows, start, end, limit);
  }

  // ---------------------------------------------------------------- agreement with the engine

  function TripleOf(ctx: Context): SectorRow -> Triple {
    (row: SectorRow) => Triple(row.sector, ctx.strategy(row.rec.snapshot), CloseAt(ctx.results, row.rec.id, 5))
  }

  /** The runner's inner loop: one triple per selected row. */
  method CollectTriples(ctx: Context, rows: seq<SectorRow>) returns (triples: seq<Triple>)
    ensures triples == MapSeq(rows, TripleOf(ctx))
  {
    triples := [];
    for i := 0 to |rows|
      invariant |triples| == i && forall k :: 0 <= k < i ==> triples[k] == TripleOf(ctx)(rows[k])
    {
      var rec := rows[i].rec;
      triples := triples + [Triple(rows[i].sector, ctx.strategy(rec.snapshot), CloseAt(ctx.results, rec.id, 5))];
    }
  }

  function SignalsOf(): SectorEntry -> real {
    (e: SectorEntry) => e.signalCount as real
  }

  function BuysOf(): SectorEntry -> real {
    (e: SectorEntry) => e.buyCount as real
  }

  /** The known 5-day BUY returns of an entry's sector. */
  function SamplesOf(triples: seq<Triple>): SectorEntry -> real {
    (e: SectorEntry) => CountOf(Filter(triples, InBucket(SectorOf(), e.sector)), IsKnownBuy()) as real
  }

  function WinsOf(triples: seq<Triple>): SectorEntry -> real {
    (e: SectorEntry) => CountOf(Filter(triples, InBucket(SectorOf(), e.sector)), IsWonBuy()) as real
  }

  function IsKnownBuy(): Triple -> bool {
    (t: Triple) => t.action == BuySignal && t.return5.Some?
  }

  function IsWonBuy(): Triple -> bool {
    (t: Triple) => t.action == BuySignal && t.return5.Some? && t.return5.value > 0.0
  }

  function Always(): Triple -> bool {
    (t: Triple) => true
  }

  function AsOne(p: Triple -> bool): Triple -> real {
    (t: Triple) => if p(t) then 1.0 else 0.0
  }

  lemma {:induction false} CountAsSum(triples: seq<Triple>, p: Triple -> bool)
    ensures SumOf(triples, AsOne(p)) == CountOf(triples, p) as real
  {
    if triples != [] { CountAsSum(triples[1..], p); }
  }

  function CountIn(triples: seq<Triple>, p: Triple -> bool): string -> real {
    (name: string) => CountOf(Filter(triples, InBucket(SectorOf(), name)), p) as real
  }

  /** Counts of a property over the sectors add up to its count over all triples. */
  lemma SectorCountsAddUp(triples: seq<Triple>, p: Triple -> bool)
    ensures SumOf(Buckets(triples, SectorOf()), CountIn(triples, p)) == CountOf(triples, p) as real
  {
    var names := Buckets(triples, SectorOf());
    BucketsAreDistinctNames(triples, SectorOf());
    BucketSumsAddUp(triples, SectorOf(), names, AsOne(p));
    CountAsSum(triples, p);
    forall name | name in names ensures CountIn(triples, p)(name) == SumIn(triples, SectorOf(), AsOne(p))(name) {
      CountAsSum(Filter(triples, InBucket(SectorOf(), name)), p);
    }
    SumCongruence(names, CountIn(triples, p), SumIn(triples, SectorOf(), AsOne(p)));
  }

  lemma {:induction false} SumOverEntries(names: seq<string>, triples: seq<Triple>, g: SectorEntry -> real,
                                          p: Triple -> bool)
    requires forall name :: g(SectorEntryOf(triples)(name)) == CountIn(triples, p)(name)
    ensures SumOf(MapSeq(names, SectorEntryOf(triples)), g) == SumOf(names, CountIn(triples, p))
  {
    if names != [] { SumOverEntries(names[1..], triples, g, p); }
  }

  lemma SectorTotal(triples: seq<Triple>, g: SectorEntry -> real, p: Triple -> bool)
    requires forall name :: g(SectorEntryOf(triples)(name)) == CountIn(triples, p)(name)
    ensures SumOf(AggregateSectors(triples), g) == CountOf(triples, p) as real
  {
    SortByMultiset(SectorEntries(triples), LargestSector());
    SumOfPermutation(AggregateSectors(triples), SectorEntries(triples), g);
    SumOverEntries(Buckets(triples, SectorOf()), triples, g, p);
    SectorCountsAddUp(triples, p);
  }

  /** Sector signal counts, buy counts, samples and wins add up to those of all triples. */
  lemma SectorsAddUp(triples: seq<Triple>)
    ensures var entries := AggregateSectors(triples);
            && SumOf(entries, SignalsOf()) == |triples| as real
            && SumOf(entries, BuysOf()) == CountOf(triples, IsBuy()) as real
            && SumOf(entries, SamplesOf(triples)) == CountOf(triples, IsKnownBuy()) as real
            && SumOf(entries, WinsOf(triples)) == CountOf(triples, IsWonBuy()) as real
  {
    hide AggregateSectors, SumOf, CountOf;
    forall name: string
      ensures SignalsOf()(SectorEntryOf(triples)(name)) == CountIn(triples, Always())(name)
      ensures BuysOf()(SectorEntryOf(triples)(name)) == CountIn(triples, IsBuy())(name)
    {
      var rows := Filter(triples, InBucket(SectorOf(), name));
      CountAll(rows, Always());
      CountIsFilterLength(rows, IsBuy());
    }
    SectorTotal(triples, SignalsOf(), Always());
    CountAll(triples, Always());
    SectorTotal(triples, BuysOf(), IsBuy());
    SectorTotal(triples, SamplesOf(triples), IsKnownBuy());
    SectorTotal(triples, WinsOf(triples), IsWonBuy());
  }

  lemma {:induction false} CountsCarryOver(ctx: Context, joined: seq<SectorRow>, rows: seq<Recommendation>)
    requires MapSeq(joined, RecOf()) == rows
    ensures var triples, evaluated := MapSeq(joined, TripleOf(ctx)), MapSeq(rows, Evaluator(ctx));
            var buys := BuyRows(evaluated);
            && |triples| == |evaluated|
            && CountOf(triples, IsBuy()) == |buys|
            && CountOf(triples, IsKnownBuy()) == Samples(buys, Horizon(5))
            && CountOf(triples, IsWonBuy()) == CountOf(buys, Won(Horizon(5)))
  {
    if joined != [] {
      assert rows[1..] == MapSeq(joined[1..], RecOf());
      CountsCarryOver(ctx, joined[1..], rows[1..]);
      var rest := BuyRows(MapSeq(rows[1..], Evaluator(ctx)));
      var first := Evaluate(ctx, rows[0]);
      assert MapSeq(rows, Evaluator(ctx)) == [first] + MapSeq(rows[1..], Evaluator(ctx));
      if first.action == BuySignal {
        assert ([first] + rest)[1..] == rest;
      } else {
        assert [] + rest == rest;
      }
    }
  }

  lemma {:induction false} ReturnsCarryOver(ctx: Context, joined: seq<SectorRow>, rows: seq<Recommendation>)
    requires MapSeq(joined, RecOf()) == rows
    ensures var bought := Filter(MapSeq(joined, TripleOf(ctx)), IsBuy());
            var buys := BuyRows(MapSeq(rows, Evaluator(ctx)));
            MapSeq(bought, Return5()) == MapSeq(buys, Horizon(5))
  {
    if joined != [] {
      assert rows[1..] == MapSeq(joined[1..], RecOf());
      ReturnsCarryOver(ctx, joined[1..], rows[1..]);
      var t, r := TripleOf(ctx)(joined[0]), Evaluate(ctx, rows[0]);
      assert MapSeq(joined, TripleOf(ctx)) == [t] + MapSeq(joined[1..], TripleOf(ctx));
      assert MapSeq(rows, Evaluator(ctx)) == [r] + MapSeq(rows[1..], Evaluator(ctx));
      FilterHead(t, MapSeq(joined[1..], TripleOf(ctx)), IsBuy());
      FilterHead(r, MapSeq(rows[1..], Evaluator(ctx)), IsAction(BuySignal));
    }
  }

  lemma FilterHead<T>(x: T, xs: seq<T>, keep: T -> bool)
    ensures Filter([x] + xs, keep) == if keep(x) then [x] + Filter(xs, keep) else Filter(xs, keep)
  {
    assert ([x] + xs)[1..] == xs;
  }

  /** For the same range and limit the sector averages recombine to the engine's own 5-day average. */
  lemma SectorAveragesAgreeWithEngine(ctx: Context, recs: seq<Recommendation>, stocks: seq<Stock>,
                                      rows: seq<Recommendation>, joined: seq<SectorRow>, summary: Summary,
                                      start: Option<int>, end: Option<int>, limit: Option<int>)
    requires RanksUnique(recs) && SymbolsUnique(stocks)
    requires IsSelection(rows, recs, start, end, limit)
    requires IsSectorSelection(joined, recs, stocks, start, end, limit)
    requires Summarizes(summary, MapSeq(rows, Evaluator(ctx)))
    ensures var triples := MapSeq(joined, TripleOf(ctx));
            var n := summary.buyCount - summary.missing[5];
            && n >= 0
            && -0.0001 * (n as real)
               <= SumOf(AggregateSectors(triples), SectorWeight(triples)) - Weighted(n, summary.avgReturn[5])
               <= 0.0001 * (n as real)
  {
    hide IsSelection, IsSectorSelection, RanksUnique, SymbolsUnique, AggregateSectors, SectorWeight, SumOf, Filter,
         Samples, AvgReturn, WinRate, Weighted, MapSeq, BuyRows;
    BothQueriesSelectTheSame(recs, stocks, rows, joined, start, end, limit);
    var triples := MapSeq(joined, TripleOf(ctx));
    SectorsRecombine(triples);
    ReturnsCarryOver(ctx, joined, rows);
    SameValuesSameMetrics(Filter(triples, IsBuy()), Return5(), BuyRows(MapSeq(rows, Evaluator(ctx))), Horizon(5));
    assert HORIZONS[2] == 5;
  }

  /** For the same range and limit the sector view and the engine count the same signals, BUYs,
      known 5-day BUY returns and wins. */
  lemma SectorsAgreeWithEngine(ctx: Context, recs: seq<Recommendation>, stocks: seq<Stock>,
                               rows: seq<Recommendation>, joined: seq<SectorRow>, summary: Summary,
                               start: Option<int>, end: Option<int>, limit: Option<int>)
    requires RanksUnique(recs) && SymbolsUnique(stocks)
    requires IsSelection(rows, recs, start, end, limit)
    requires IsSectorSelection(joined, recs, stocks, start, end, limit)
    requires Summarizes(summary, MapSeq(rows, Evaluator(ctx)))
    ensures var triples := MapSeq(joined, TripleOf(ctx));
            var entries, buys := AggregateSectors(triples), BuyRows(MapSeq(rows, Evaluator(ctx)));
            && SumOf(entries, SignalsOf()) == summary.signalCount as real
            && SumOf(entries, BuysOf()) == summary.buyCount as real
            && SumOf(entries, SamplesOf(triples)) == (summary.buyCount - summary.missing[5]) as real
            && SumOf(entries, WinsOf(triples)) == CountOf(buys, Won(Horizon(5))) as real
  {
    BothQueriesSelectTheSame(recs, stocks, rows, joined, start, end, limit);
    SectorsAddUp(MapSeq(joined, TripleOf(ctx)));
    CountsCarryOver(ctx, joined, rows);
    assert HORIZONS[2] == 5;
  }
}
