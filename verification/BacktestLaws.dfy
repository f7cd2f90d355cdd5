/** What a backtest reports, in the fields of the recommendations and of the results on file
    (app/backtest/engine.py, app/backtest/regime_breakdown.py). */
module BacktestLaws {
  import opened Wrappers
  import opened Sequences
  import opened Metrics
  import opened Grouping
  import opened BacktestEngine
  import opened RegimeBreakdownLaws
  import opened SectorBreakdown

  // ---------------------------------------------------------------- which rows

  /** The run date lies in the range asked for, both ends included. */
  function Wanted(start: Option<int>, end: Option<int>): Recommendation -> bool {
    (r: Recommendation) => !(start.Some? && r.runDate < start.value) && !(end.Some? && r.runDate > end.value)
  }

  /** Later run first; of one date the greater run id; of one run the lesser rank. */
  ghost predicate Sooner(a: Recommendation, b: Recommendation) {
    if a.runDate != b.runDate then a.runDate > b.runDate
    else if a.runId != b.runId then a.runId > b.runId
    else a.rank < b.rank
  }

  /** The selected rows are recommendations of the range, in sequence, and cut to the limit when that is
      positive; what is left out of the range comes after them. */
  lemma SelectionExactly(rows: seq<Recommendation>, recs: seq<Recommendation>, start: Option<int>, end: Option<int>,
                         limit: Option<int>)
    requires RanksUnique(recs) && IsSelection(rows, recs, start, end, limit)
    ensures forall r :: r in rows ==> r in recs && Wanted(start, end)(r)
    ensures forall i, j :: 0 <= i < j < |rows| ==> Sooner(rows[i], rows[j])
    ensures var wanted := CountOf(recs, Wanted(start, end));
            |rows| == if limit.Some? && 0 < limit.value < wanted then limit.value else wanted
    ensures forall r, s :: r in recs && Wanted(start, end)(r) && r !in rows && s in rows ==> Sooner(s, r)
  {
    hide Filter, Ordered, RanksUnique, Wanted, Sooner;
    WantedIsInRange(recs, start, end);
    var kept := Filter(recs, Wanted(start, end));
    var full: seq<Recommendation> :| multiset(full) == multiset(kept) && Ordered(full, NewestFirst())
      && rows == Limited(full, limit);
    KeptExactly(recs, full, Wanted(start, end));
    KeptRanksUnique(recs, Wanted(start, end));
    FullIsSorted(kept, full);
    CutOffComesLater(full, rows, |rows|);
  }

  lemma WantedIsInRange(recs: seq<Recommendation>, start: Option<int>, end: Option<int>)
    ensures Filter(recs, InRange(start, end)) == Filter(recs, Wanted(start, end))
  {
    FilterCongruence(recs, InRange(start, end), Wanted(start, end));
  }

  lemma KeptExactly(recs: seq<Recommendation>, full: seq<Recommendation>, keep: Recommendation -> bool)
    requires multiset(full) == multiset(Filter(recs, keep))
    ensures forall r :: r in full <==> r in recs && keep(r)
    ensures |full| == CountOf(recs, keep)
  {
    hide Filter, CountOf;
    FilterMembers(recs, keep);
    SameMembers(full, Filter(recs, keep));
    CountIsFilterLength(recs, keep);
    assert |full| == |multiset(full)| == |multiset(Filter(recs, keep))| == |Filter(recs, keep)|;
  }

  /** Rows cut off a sorted sequence come after those kept. */
  lemma CutOffComesLater(full: seq<Recommendation>, rows: seq<Recommendation>, n: nat)
    requires n <= |full| && rows == full[..n]
    requires forall i, j :: 0 <= i < j < |full| ==> Sooner(full[i], full[j])
    ensures forall r, s :: r in full && r !in rows && s in rows ==> Sooner(s, r)
  {
    hide Sooner;
    forall r, s | r in full && r !in rows && s in rows ensures Sooner(s, r) {
      assert forall k :: 0 <= k < n ==> full[k] == rows[k] && full[k] in rows;
      var j :| 0 <= j < |full| && full[j] == r;
      var i :| 0 <= i < n && full[i] == s;
    }
  }

  /** Each row a filter keeps has one place among the rows it keeps. */
  lemma {:induction false} KeptRanksUnique(recs: seq<Recommendation>, keep: Recommendation -> bool)
    requires RanksUnique(recs)
    ensures RanksUnique(Filter(recs, keep))
  {
    if recs != [] {
      assert RanksUnique(recs[1..]) by { assert forall i :: 0 <= i < |recs[1..]| ==> recs[1..][i] == recs[i + 1]; }
      KeptRanksUnique(recs[1..], keep);
      FilterMembers(recs[1..], keep);
      var rest, all := Filter(recs[1..], keep), Filter(recs, keep);
      forall i, j | 0 <= i < j < |all| ensures all[i].runId != all[j].runId || all[i].rank != all[j].rank {
        if keep(recs[0]) && i == 0 {
          assert all[j] == rest[j - 1] && rest[j - 1] in rest;
          var k :| 0 <= k < |recs[1..]| && recs[1..][k] == all[j];
          assert recs[k + 1] == all[j];
        }
      }
    }
  }

  lemma RanksPermute(xs: seq<Recommendation>, ys: seq<Recommendation>)
    requires RanksUnique(xs) && multiset(xs) == multiset(ys)
    ensures RanksUnique(ys)
  {
    assert Distinct(xs);
    DistinctPermutes(xs, ys);
    SameMembers(xs, ys);
    forall i, j | 0 <= i < j < |ys| ensures ys[i].runId != ys[j].runId || ys[i].rank != ys[j].rank {
      assert ys[i] in ys && ys[j] in ys;
      var k :| 0 <= k < |xs| && xs[k] == ys[i];
      var l :| 0 <= l < |xs| && xs[l] == ys[j];
    }
  }

  lemma FullIsSorted(kept: seq<Recommendation>, full: seq<Recommendation>)
    requires RanksUnique(kept) && multiset(full) == multiset(kept) && Ordered(full, NewestFirst())
    ensures forall i, j :: 0 <= i < j < |full| ==> Sooner(full[i], full[j])
  {
    RanksPermute(kept, full);
    forall i, j | 0 <= i < j < |full| ensures Sooner(full[i], full[j]) {
      assert !NewestFirst()(full[j], full[i]);
    }
  }

  // ---------------------------------------------------------------- what a row says

  /** The close on file for a recommendation at a horizon. */
  function CloseOnFile(results: map<(int, int), HorizonResult>, h: int): Recommendation -> Option<real> {
    (r: Recommendation) => if (r.id, h) in results then results[(r.id, h)].close else None
  }

  function DrawdownOnFile(results: map<(int, int), HorizonResult>, r: Recommendation, h: int): Option<real> {
    if (r.id, h) in results then results[(r.id, h)].maxDrawdown else None
  }

  /** The least of the drawdowns on file, and none when none is. */
  ghost predicate IsLeastOnFile(d: Option<real>, results: map<(int, int), HorizonResult>, r: Recommendation) {
    && (d.None? <==> forall h :: h in {1, 3, 5, 20} ==> DrawdownOnFile(results, r, h).None?)
    && (d.Some? ==>
          && (exists h :: h in {1, 3, 5, 20} && DrawdownOnFile(results, r, h) == d)
          && forall h :: h in {1, 3, 5, 20} && DrawdownOnFile(results, r, h).Some? ==>
               d.value <= DrawdownOnFile(results, r, h).value)
  }

  /** The 5-day return less the whole cost of a trade in percent, of a BUY only. */
  function ChargedClose(ctx: Context): Recommendation -> Option<real> {
    (r: Recommendation) =>
      match CloseOnFile(ctx.results, 5)(r)
      case None => None
      case Some(v) =>
        if ctx.strategy(r.snapshot) == BuySignal then
          Some(v - 100.0 * (ctx.costs.buyFee + ctx.costs.sellFee + ctx.costs.sellTax + ctx.costs.slippage))
        else None
  }

  /** An evaluated row has the strategy's verdict, the closes on file at the four horizons, the least
      drawdown on file over them, the charged 5-day return, and the regime of the run's date. */
  lemma EvaluatedExactly(ctx: Context, r: Recommendation)
    ensures var row := Evaluate(ctx, r);
            && row.recommendationId == r.id && row.action == ctx.strategy(r.snapshot)
            && row.regime == ctx.regimeOf(r.runDate)
            && (forall h :: h in {1, 3, 5, 20} ==> Horizon(h)(row) == CloseOnFile(ctx.results, h)(r))
            && row.costAdjusted5 == ChargedClose(ctx)(r)
            && IsLeastOnFile(row.maxDrawdown, ctx.results, r)
  {
    LeastOfFour(ctx.results, r);
  }

  lemma LeastOfFour(results: map<(int, int), HorizonResult>, r: Recommendation)
    ensures IsLeastOnFile(Lower(Lower(DrawdownAt(results, r.id, 1), DrawdownAt(results, r.id, 3)),
                                Lower(DrawdownAt(results, r.id, 5), DrawdownAt(results, r.id, 20))), results, r)
  {
    var a, b := DrawdownOnFile(results, r, 1), DrawdownOnFile(results, r, 3);
    var c, d := DrawdownOnFile(results, r, 5), DrawdownOnFile(results, r, 20);
    var least := Lower(Lower(a, b), Lower(c, d));
    assert least == a || least == b || least == c || least == d;
  }

  // ---------------------------------------------------------------- what a summary says

  function Verdict(ctx: Context, a: Action): Recommendation -> bool {
    (r: Recommendation) => ctx.strategy(r.snapshot) == a
  }

  /** The recommendations the strategy would buy. */
  function Bought(ctx: Context, rows: seq<Recommendation>): seq<Recommendation> {
    Filter(rows, Verdict(ctx, BuySignal))
  }

  lemma {:induction false} BuysAreBought(ctx: Context, rows: seq<Recommendation>)
    ensures BuyRows(MapSeq(rows, Evaluator(ctx))) == MapSeq(Bought(ctx, rows), Evaluator(ctx))
    ensures forall a :: CountOf(MapSeq(rows, Evaluator(ctx)), IsAction(a)) == CountOf(rows, Verdict(ctx, a))
  {
    if rows != [] {
      BuysAreBought(ctx, rows[1..]);
      assert MapSeq(rows, Evaluator(ctx)) == [Evaluate(ctx, rows[0])] + MapSeq(rows[1..], Evaluator(ctx));
      FilterHead(Evaluate(ctx, rows[0]), MapSeq(rows[1..], Evaluator(ctx)), IsAction(BuySignal));
      FilterHead(rows[0], rows[1..], Verdict(ctx, BuySignal));
      assert rows == [rows[0]] + rows[1..];
    }
  }

  lemma {:induction false} HorizonsOf(ctx: Context, rows: seq<Recommendation>, h: int)
    requires h in {1, 3, 5, 20}
    ensures MapSeq(MapSeq(rows, Evaluator(ctx)), Horizon(h)) == MapSeq(rows, CloseOnFile(ctx.results, h))
  {
    if rows != [] {
      HorizonsOf(ctx, rows[1..], h);
      EvaluatedExactly(ctx, rows[0]);
      assert MapSeq(rows, Evaluator(ctx))[1..] == MapSeq(rows[1..], Evaluator(ctx));
    }
  }

  lemma {:induction false} ChargesOf(ctx: Context, rows: seq<Recommendation>)
    ensures MapSeq(MapSeq(rows, Evaluator(ctx)), CostAdjusted()) == MapSeq(rows, ChargedClose(ctx))
  {
    if rows != [] {
      ChargesOf(ctx, rows[1..]);
      EvaluatedExactly(ctx, rows[0]);
      assert MapSeq(rows, Evaluator(ctx))[1..] == MapSeq(rows[1..], Evaluator(ctx));
    }
  }

  /** The summary of a run counts the strategy's verdicts on the selected rows; at each of the four
      horizons its win rate, average and gaps are those of the closes on file over the rows bought; and its
      cost-adjusted average is that of the charged 5-day returns. */
  lemma SummaryExactly(ctx: Context, rows: seq<Recommendation>, s: Summary)
    requires Summarizes(s, MapSeq(rows, Evaluator(ctx)))
    ensures s.signalCount == |rows| && s.buyCount == |Bought(ctx, rows)|
    ensures s.passCount == CountOf(rows, Verdict(ctx, PassSignal))
            && s.avoidCount == CountOf(rows, Verdict(ctx, AvoidSignal))
    ensures forall h :: h in {1, 3, 5, 20} ==>
              var bought, close := Bought(ctx, rows), CloseOnFile(ctx.results, h);
              && h in s.winRate && s.winRate[h] == WinRate(bought, close)
              && h in s.avgReturn && s.avgReturn[h] == AvgReturn(bought, close)
              && h in s.missing && s.missing[h] == |bought| - Samples(bought, close)
    ensures s.costAdjustedAvg5 == AvgReturn(Bought(ctx, rows), ChargedClose(ctx))
  {
    hide Filter, AvgReturn, WinRate, Samples, WorstDrawdown, Horizon, BuyRows, Bought, CountOf;
    BuysAreBought(ctx, rows);
    var bought := Bought(ctx, rows);
    var buys := MapSeq(bought, Evaluator(ctx));
    assert BuyRows(MapSeq(rows, Evaluator(ctx))) == buys;
    assert HORIZONS[0] == 1 && HORIZONS[1] == 3 && HORIZONS[2] == 5 && HORIZONS[3] == 20;
    forall h | h in {1, 3, 5, 20}
      ensures && h in s.winRate && s.winRate[h] == WinRate(bought, CloseOnFile(ctx.results, h))
              && h in s.avgReturn && s.avgReturn[h] == AvgReturn(bought, CloseOnFile(ctx.results, h))
              && h in s.missing && s.missing[h] == |bought| - Samples(bought, CloseOnFile(ctx.results, h))
    {
      assert h in HORIZONS;
      HorizonsOf(ctx, bought, h);
      SameValuesSameMetrics(buys, Horizon(h), bought, CloseOnFile(ctx.results, h));
    }
    ChargesOf(ctx, bought);
    SameValuesSameMetrics(buys, CostAdjusted(), bought, ChargedClose(ctx));
  }

  /** A drawdown on file of one of the rows at one of the four horizons. */
  ghost predicate OnFileFor(d: real, results: map<(int, int), HorizonResult>, rows: seq<Recommendation>) {
    exists i, h :: 0 <= i < |rows| && h in {1, 3, 5, 20} && DrawdownOnFile(results, rows[i], h) == Some(d)
  }

  /** The summary's drawdown is the least one on file over the rows bought and the four horizons. */
  lemma DrawdownExactly(ctx: Context, rows: seq<Recommendation>, s: Summary)
    requires Summarizes(s, MapSeq(rows, Evaluator(ctx)))
    ensures s.maxDrawdown.None? <==> forall d :: !OnFileFor(d, ctx.results, Bought(ctx, rows))
    ensures s.maxDrawdown.Some? ==>
              && OnFileFor(s.maxDrawdown.value, ctx.results, Bought(ctx, rows))
              && forall d :: OnFileFor(d, ctx.results, Bought(ctx, rows)) ==> s.maxDrawdown.value <= d
  {
    hide Filter, AvgReturn, WinRate, Samples, BuyRows, Bought, CountOf, OnFileFor, WorstDrawdown;
    BuysAreBought(ctx, rows);
    LeastOfAll(ctx, Bought(ctx, rows));
  }

  lemma {:induction false} LeastOfAll(ctx: Context, rows: seq<Recommendation>)
    ensures var worst := WorstDrawdown(MapSeq(rows, Evaluator(ctx)));
            && (worst.None? <==> forall d :: !OnFileFor(d, ctx.results, rows))
            && (worst.Some? ==> OnFileFor(worst.value, ctx.results, rows)
                                && forall d :: OnFileFor(d, ctx.results, rows) ==> worst.value <= d)
  {
    hide Evaluate, DrawdownOnFile;
    if rows != [] {
      var first, rest := [rows[0]], rows[1..];
      LeastOfAll(ctx, rest);
      LeastOfRow(ctx, rows[0]);
      assert MapSeq(rows, Evaluator(ctx))[1..] == MapSeq(rest, Evaluator(ctx));
      forall d
        ensures OnFileFor(d, ctx.results, rows)
                <==> OnFileFor(d, ctx.results, first) || OnFileFor(d, ctx.results, rest)
      {
        assert rows == first + rest;
        SomeRow(d, ctx.results, first, rest);
      }
      hide OnFileFor;
    }
  }

  lemma LeastOfRow(ctx: Context, r: Recommendation)
    ensures var d := Evaluate(ctx, r).maxDrawdown;
            && (d.None? <==> forall x :: !OnFileFor(x, ctx.results, [r]))
            && (d.Some? ==>
                  && OnFileFor(d.value, ctx.results, [r])
                  && forall x :: OnFileFor(x, ctx.results, [r]) ==> d.value <= x)
  {
    hide Evaluate, DrawdownOnFile;
    EvaluatedExactly(ctx, r);
    assert [r][0] == r;
    var d := Evaluate(ctx, r).maxDrawdown;
    if d.Some? {
      var h :| h in {1, 3, 5, 20} && DrawdownOnFile(ctx.results, r, h) == d;
      assert DrawdownOnFile(ctx.results, [r][0], h) == Some(d.value);
    } else {
      assert forall h :: h in {1, 3, 5, 20} ==> DrawdownOnFile(ctx.results, r, h).None?;
    }
    if h :| h in {1, 3, 5, 20} && DrawdownOnFile(ctx.results, r, h).Some? {
      assert OnFileFor(DrawdownOnFile(ctx.results, r, h).value, ctx.results, [r]) by {
        assert DrawdownOnFile(ctx.results, [r][0], h).Some?;
      }
    }
  }

  lemma SomeRow(d: real, results: map<(int, int), HorizonResult>, xs: seq<Recommendation>, ys: seq<Recommendation>)
    ensures OnFileFor(d, results, xs + ys) <==> OnFileFor(d, results, xs) || OnFileFor(d, results, ys)
  {
    hide DrawdownOnFile;
    if OnFileFor(d, results, xs) {
      var i, h :| 0 <= i < |xs| && h in {1, 3, 5, 20} && DrawdownOnFile(results, xs[i], h) == Some(d);
      assert DrawdownOnFile(results, (xs + ys)[i], h) == Some(d);
    }
    if OnFileFor(d, results, ys) {
      var i, h :| 0 <= i < |ys| && h in {1, 3, 5, 20} && DrawdownOnFile(results, ys[i], h) == Some(d);
      assert DrawdownOnFile(results, (xs + ys)[|xs| + i], h) == Some(d);
    }
  }

  // ---------------------------------------------------------------- what the breakdowns say

  /** A BUY row of the regime of that name; rows without a regime go by UNCLASSIFIED. */
  function BuyInRegime(name: string): EvaluatedRow -> bool {
    (r: EvaluatedRow) =>
      && r.action == BuySignal
      && name == match r.regime
                 case None => "UNCLASSIFIED"
                 case Some(x) => if x == "" then "UNCLASSIFIED" else x
  }

  lemma BuysOfRegime(rows: seq<EvaluatedRow>, name: string)
    ensures Filter(BuyRows(rows), InBucket(BucketOf(), name)) == Filter(rows, BuyInRegime(name))
  {
    FilterFilter(rows, IsAction(BuySignal), InBucket(BucketOf(), name), BuyInRegime(name));
  }

  /** There is an entry for each regime bought in, and each entry counts and averages the BUY rows of its
      regime; bigger entries come first, equal ones by name. */
  lemma RegimesExactly(rows: seq<EvaluatedRow>)
    ensures forall e :: e in RegimeBreakdown(rows) ==>
              var members := Filter(rows, BuyInRegime(e.regime));
              && e.buyCount == |members| > 0
              && e.winRate5 == WinRate(members, Horizon(5)) && e.avgReturn5 == AvgReturn(members, Horizon(5))
              && e.costAdjustedAvg5 == AvgReturn(members, CostAdjusted())
    ensures forall r, name :: r in rows && BuyInRegime(name)(r) ==>
              exists e :: e in RegimeBreakdown(rows) && e.regime == name
    ensures forall i, j :: 0 <= i < j < |RegimeBreakdown(rows)| ==>
              var a, b := RegimeBreakdown(rows)[i], RegimeBreakdown(rows)[j];
              a.buyCount > b.buyCount || (a.buyCount == b.buyCount && LexLess(a.regime, b.regime))
  {
    hide RegimeBreakdown, Filter, AvgReturn, WinRate, MapSeq, Buckets, BuyRows;
    BreakdownSorts(rows);
    BreakdownPartitionsBuys(rows);
    SameMembers(RegimeBreakdown(rows), Entries(rows));
    forall e | e in RegimeBreakdown(rows)
      ensures var members := Filter(rows, BuyInRegime(e.regime));
              && e.buyCount == |members| > 0
              && e.winRate5 == WinRate(members, Horizon(5)) && e.avgReturn5 == AvgReturn(members, Horizon(5))
              && e.costAdjustedAvg5 == AvgReturn(members, CostAdjusted())
    {
      EntryOfMember(rows, e);
      BuysOfRegime(rows, e.regime);
    }
    forall r, name | r in rows && BuyInRegime(name)(r)
      ensures exists e :: e in RegimeBreakdown(rows) && e.regime == name
    {
      RegimeHasEntry(rows, r, name);
    }
    forall i, j | 0 <= i < j < |RegimeBreakdown(rows)|
      ensures var a, b := RegimeBreakdown(rows)[i], RegimeBreakdown(rows)[j];
              a.buyCount > b.buyCount || (a.buyCount == b.buyCount && LexLess(a.regime, b.regime))
    {
      LexTrichotomy(RegimeBreakdown(rows)[i].regime, RegimeBreakdown(rows)[j].regime);
      assert !LargestRegime()(RegimeBreakdown(rows)[j], RegimeBreakdown(rows)[i]);
    }
  }

  lemma RegimeHasEntry(rows: seq<EvaluatedRow>, r: EvaluatedRow, name: string)
    requires r in rows && BuyInRegime(name)(r)
    ensures exists e :: e in RegimeBreakdown(rows) && e.regime == name
  {
    hide RegimeBreakdown, Filter, AvgReturn, WinRate, Buckets;
    FilterMembers(rows, IsAction(BuySignal));
    var buys := BuyRows(rows);
    assert r in buys;
    var i :| 0 <= i < |buys| && buys[i] == r;
    BucketsAreDistinctNames(buys, BucketOf());
    assert BucketOf()(r) == name;
    var names := Buckets(buys, BucketOf());
    var k :| 0 <= k < |names| && names[k] == name;
    var e := EntryOf(buys)(name);
    assert Entries(rows)[k] == e;
    assert e in Entries(rows) && e.regime == name;
    BreakdownSorts(rows);
    SameMembers(RegimeBreakdown(rows), Entries(rows));
  }

  function InSector(name: string): Triple -> bool {
    (t: Triple) => name == match t.sector case None => "UNKNOWN" case Some(x) => if x == "" then "UNKNOWN" else x
  }

  function BuyInSector(name: string): Triple -> bool {
    (t: Triple) => t.action == BuySignal && InSector(name)(t)
  }

  /** There is an entry for each sector met, and each entry counts the triples of its sector and counts and
      averages its BUYs; sectors with most BUYs come first, equal ones by name. */
  lemma SectorsExactly(triples: seq<Triple>)
    ensures forall e :: e in AggregateSectors(triples) ==>
              var members := Filter(triples, BuyInSector(e.sector));
              && e.signalCount == CountOf(triples, InSector(e.sector)) && e.buyCount == |members|
              && e.winRate5 == WinRate(members, Return5()) && e.avgReturn5 == AvgReturn(members, Return5())
    ensures forall t, name :: t in triples && InSector(name)(t) ==>
              exists e :: e in AggregateSectors(triples) && e.sector == name
    ensures forall i, j :: 0 <= i < j < |AggregateSectors(triples)| ==>
              var a, b := AggregateSectors(triples)[i], AggregateSectors(triples)[j];
              a.buyCount > b.buyCount || (a.buyCount == b.buyCount && LexLess(a.sector, b.sector))
  {
    hide AggregateSectors, Filter, AvgReturn, WinRate, Buckets, CountOf;
    SectorsAreSorted(triples);
    SectorMembers(triples);
    forall e | e in AggregateSectors(triples)
      ensures var members := Filter(triples, BuyInSector(e.sector));
              && e.signalCount == CountOf(triples, InSector(e.sector)) && e.buyCount == |members|
              && e.winRate5 == WinRate(members, Return5()) && e.avgReturn5 == AvgReturn(members, Return5())
    {
      forall t | t in triples ensures InBucket(SectorOf(), e.sector)(t) == InSector(e.sector)(t) {
        SectorIs(t, e.sector);
      }
      FilterFilter(triples, InBucket(SectorOf(), e.sector), IsBuy(), BuyInSector(e.sector));
      FilterCongruence(triples, InBucket(SectorOf(), e.sector), InSector(e.sector));
      CountIsFilterLength(triples, InSector(e.sector));
    }
    forall t, name | t in triples && InSector(name)(t)
      ensures exists e :: e in AggregateSectors(triples) && e.sector == name
    {
      BucketsAreDistinctNames(triples, SectorOf());
      var i :| 0 <= i < |triples| && triples[i] == t;
      SectorIs(t, name);
      var names := Buckets(triples, SectorOf());
      var k :| 0 <= k < |names| && names[k] == name;
      assert SectorEntries(triples)[k] == SectorEntryOf(triples)(name);
      assert SectorEntryOf(triples)(name) in SectorEntries(triples);
    }
    forall i, j | 0 <= i < j < |AggregateSectors(triples)|
      ensures var a, b := AggregateSectors(triples)[i], AggregateSectors(triples)[j];
              a.buyCount > b.buyCount || (a.buyCount == b.buyCount && LexLess(a.sector, b.sector))
    {
      var names := MapSeq(AggregateSectors(triples), SectorName());
      assert names[i] != names[j];
      LexTrichotomy(AggregateSectors(triples)[i].sector, AggregateSectors(triples)[j].sector);
      assert !LargestSector()(AggregateSectors(triples)[j], AggregateSectors(triples)[i]);
    }
  }

  lemma SectorIs(t: Triple, name: string)
    ensures InSector(name)(t) <==> SectorOf()(t) == name
  {
  }

  lemma SectorMembers(triples: seq<Triple>)
    ensures forall e :: e in AggregateSectors(triples) <==> e in SectorEntries(triples)
    ensures forall e :: e in SectorEntries(triples) ==> e == SectorEntryOf(triples)(e.sector)
  {
    hide Filter, AvgReturn, WinRate, Buckets;
    SortByMultiset(SectorEntries(triples), LargestSector());
    SameMembers(AggregateSectors(triples), SectorEntries(triples));
  }

  /** Each joined row carries the sector of the stock of its symbol, and none when no stock has it; its
      triple carries that sector, the strategy's verdict and the 5-day close on file. */
  lemma JoinedRowExactly(ctx: Context, recs: seq<Recommendation>, stocks: seq<Stock>, i: nat)
    requires SymbolsUnique(stocks) && i < |Join(recs, stocks)|
    ensures var row := Join(recs, stocks)[i];
            && (forall s :: s in stocks && s.symbol == row.rec.snapshot.symbol ==> row.sector == s.sector)
            && ((forall s :: s in stocks ==> s.symbol != row.rec.snapshot.symbol) ==> row.sector.None?)
            && TripleOf(ctx)(row)
               == Triple(row.sector, ctx.strategy(row.rec.snapshot), CloseOnFile(ctx.results, 5)(row.rec))
  {
    hide Join, JoinOne, SymbolsUnique;
    var row := Join(recs, stocks)[i];
    var r := JoinedFrom(recs, stocks, row);
    JoinOneExactly(r, stocks);
  }

  lemma {:induction false} JoinedFrom(recs: seq<Recommendation>, stocks: seq<Stock>, row: SectorRow)
    returns (r: Recommendation)
    requires row in Join(recs, stocks)
    ensures row in JoinOne(r, stocks)
  {
    hide JoinOne;
    if row in JoinOne(recs[0], stocks) {
      r := recs[0];
    } else {
      r := JoinedFrom(recs[1..], stocks, row);
    }
  }

  lemma JoinOneExactly(r: Recommendation, stocks: seq<Stock>)
    requires SymbolsUnique(stocks)
    ensures forall row :: row in JoinOne(r, stocks) ==>
              && row.rec == r
              && (forall s :: s in stocks && s.symbol == r.snapshot.symbol ==> row.sector == s.sector)
              && ((forall s :: s in stocks ==> s.symbol != r.snapshot.symbol) ==> row.sector.None?)
  {
    var matches := Filter(stocks, HasSymbol(r.snapshot.symbol));
    FilterMembers(stocks, HasSymbol(r.snapshot.symbol));
    EmptyOrInhabited(matches);
    forall row | row in JoinOne(r, stocks)
      ensures row.rec == r && (forall s :: s in stocks && s.symbol == r.snapshot.symbol ==> row.sector == s.sector)
      ensures (forall s :: s in stocks ==> s.symbol != r.snapshot.symbol) ==> row.sector.None?
    {
      if matches != [] {
        var k :| 0 <= k < |matches| && row == WithStock(r)(matches[k]);
        assert matches[k] in matches;
        forall s | s in stocks && s.symbol == r.snapshot.symbol ensures s == matches[k] {
          var a :| 0 <= a < |stocks| && stocks[a] == s;
          var b :| 0 <= b < |stocks| && stocks[b] == matches[k];
        }
      }
    }
  }
}
