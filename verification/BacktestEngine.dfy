/** Replaying a strategy over past recommendations (app/backtest/engine.py): selection, evaluation,
    aggregation and the regime breakdown. A recommendation row comes joined with its run and its
    score inputs; dates are day numbers. */
module BacktestEngine {
  import opened Wrappers
  import opened Sequences
  import opened CostModel
  import opened Metrics
  import opened Grouping

  datatype Action = BuySignal | PassSignal | AvoidSignal

  datatype ScoreSnapshot = ScoreSnapshot(
    symbol: string, scores: map<string, real>, riskLevel: Option<string>, riskFlags: seq<string>)

  datatype Recommendation = Recommendation(id: int, runId: int, runDate: int, rank: int, snapshot: ScoreSnapshot)

  datatype HorizonResult = HorizonResult(close: Option<real>, maxDrawdown: Option<real>)

  /** The pure strategy, the results on file by recommendation and horizon, the regime of a date,
      and the cost rates. */
  datatype Context = Context(
    strategy: ScoreSnapshot -> Action,
    results: map<(int, int), HorizonResult>,
    regimeOf: int -> Option<string>,
    costs: BacktestCosts)

  // ---------------------------------------------------------------- selection

  function InRange(start: Option<int>, end: Option<int>): Recommendation -> bool {
    (r: Recommendation) => (start.Some? ==> start.value <= r.runDate) && (end.Some? ==> r.runDate <= end.value)
  }

  /** Newest run first, then by run id downwards, then by rank. */
  function NewestFirst(): (Recommendation, Recommendation) -> bool {
    (a: Recommendation, b: Recommendation) =>
      a.runDate > b.runDate
      || (a.runDate == b.runDate && (a.runId > b.runId || (a.runId == b.runId && a.rank < b.rank)))
  }

  function Limited<T>(rows: seq<T>, limit: Option<int>): seq<T> {
    if limit.Some? && 0 < limit.value < |rows| then rows[..limit.value] else rows
  }

  /** What the query may return: the rows in range, in an order the ORDER BY allows, cut at the limit. */
  ghost predicate IsSelection(rows: seq<Recommendation>, recs: seq<Recommendation>, start: Option<int>,
                              end: Option<int>, limit: Option<int>) {
    exists full: seq<Recommendation> ::
      && multiset(full) == multiset(Filter(recs, InRange(start, end)))
      && Ordered(full, NewestFirst())
      && rows == Limited(full, limit)
  }

  /** The uniqueness constraint on (run_id, rank). */
  ghost predicate RanksUnique(recs: seq<Recommendation>) {
    forall i, j :: 0 <= i < j < |recs| ==> recs[i].runId != recs[j].runId || recs[i].rank != recs[j].rank
  }

  lemma NewestFirstIsTotal(recs: seq<Recommendation>, rows: seq<Recommendation>)
    requires RanksUnique(recs) && forall r :: r in rows ==> r in recs
    ensures StrictTotalOn(rows, NewestFirst())
  {
    forall a, b | a in rows && b in rows && a != b ensures NewestFirst()(a, b) || NewestFirst()(b, a) {
      var i :| 0 <= i < |recs| && recs[i] == a;
      var j :| 0 <= j < |recs| && recs[j] == b;
    }
  }

  /** With (run_id, rank) unique the query returns one result, limit or not. */
  lemma SelectionIsDetermined(recs: seq<Recommendation>, rows: seq<Recommendation>, again: seq<Recommendation>,
                              start: Option<int>, end: Option<int>, limit: Option<int>)
    requires RanksUnique(recs)
    requires IsSelection(rows, recs, start, end, limit) && IsSelection(again, recs, start, end, limit)
    ensures rows == again
  {
    var kept := Filter(recs, InRange(start, end));
    var a: seq<Recommendation> :| multiset(a) == multiset(kept) && Ordered(a, NewestFirst())
      && rows == Limited(a, limit);
    var b: seq<Recommendation> :| multiset(b) == multiset(kept) && Ordered(b, NewestFirst())
      && again == Limited(b, limit);
    FilterMembers(recs, InRange(start, end));
    SameMembers(a, kept);
    NewestFirstIsTotal(recs, a);
    OrderedUnique(a, b, NewestFirst());
  }

  method FetchRecommendations(recs: seq<Recommendation>, start: Option<int>, end: Option<int>, limit: Option<int>)
    returns (rows: seq<Recommendation>)
    requires RanksUnique(recs)
    ensures IsSelection(rows, recs, start, end, limit)
  {
    var kept := Filter(recs, InRange(start, end));
    FilterMembers(recs, InRange(start, end));
    NewestFirstIsTotal(recs, kept);
    SortByTotal(kept, NewestFirst());
    var full := SortBy(kept, NewestFirst());
    rows := Limited(full, limit);
  }

  // ---------------------------------------------------------------- evaluation

  datatype EvaluatedRow = EvaluatedRow(
    recommendationId: int, action: Action,
    return1: Option<real>, return3: Option<real>, return5: Option<real>, return20: Option<real>,
    maxDrawdown: Option<real>, costAdjusted5: Option<real>, regime: Option<string>)

  const HORIZONS := [1, 3, 5, 20]

  function CloseAt(results: map<(int, int), HorizonResult>, id: int, horizon: int): Option<real> {
    if (id, horizon) in results then results[(id, horizon)].close else None
  }

  function Lower(a: Option<real>, b: Option<real>): Option<real> {
    if a.None? then b else if b.None? then a else if b.value < a.value then b else a
  }

  function DrawdownAt(results: map<(int, int), HorizonResult>, id: int, horizon: int): Option<real> {
    if (id, horizon) in results then results[(id, horizon)].maxDrawdown else None
  }

  /** One row evaluated; only a BUY is charged costs. */
  function Evaluate(ctx: Context, r: Recommendation): EvaluatedRow {
    var action := ctx.strategy(r.snapshot);
    var return5 := CloseAt(ctx.results, r.id, 5);
    EvaluatedRow(
      r.id, action,
      CloseAt(ctx.results, r.id, 1), CloseAt(ctx.results, r.id, 3), return5, CloseAt(ctx.results, r.id, 20),
      Lower(Lower(DrawdownAt(ctx.results, r.id, 1), DrawdownAt(ctx.results, r.id, 3)),
            Lower(DrawdownAt(ctx.results, r.id, 5), DrawdownAt(ctx.results, r.id, 20))),
      if action == BuySignal then ApplyCost(ctx.costs, return5) else None,
      ctx.regimeOf(r.runDate))
  }

  function Evaluator(ctx: Context): Recommendation -> EvaluatedRow {
    (r: Recommendation) => Evaluate(ctx, r)
  }

  // ---------------------------------------------------------------- aggregation

  function IsAction(a: Action): EvaluatedRow -> bool {
    (r: EvaluatedRow) => r.action == a
  }

  function BuyRows(rows: seq<EvaluatedRow>): seq<EvaluatedRow> {
    Filter(rows, IsAction(BuySignal))
  }

  function Horizon(h: int): EvaluatedRow -> Option<real> {
    (r: EvaluatedRow) =>
      if h == 1 then r.return1 else if h == 3 then r.return3 else if h == 5 then r.return5 else r.return20
  }

  function CostAdjusted(): EvaluatedRow -> Option<real> {
    (r: EvaluatedRow) => r.costAdjusted5
  }

  /** The deepest drawdown on file. */
  function WorstDrawdown(rows: seq<EvaluatedRow>): (w: Option<real>)
    ensures w.None? <==> forall i :: 0 <= i < |rows| ==> rows[i].maxDrawdown.None?
    ensures w.Some? ==>
              forall i :: 0 <= i < |rows| && rows[i].maxDrawdown.Some? ==> w.value <= rows[i].maxDrawdown.value
    ensures w.Some? ==> exists i :: 0 <= i < |rows| && rows[i].maxDrawdown == w
  {
    if rows == [] then None else Lower(rows[0].maxDrawdown, WorstDrawdown(rows[1..]))
  }

  datatype Summary = Summary(
    signalCount: nat, buyCount: nat, passCount: nat, avoidCount: nat,
    winRate: map<int, Option<real>>, avgReturn: map<int, Option<real>>, missing: map<int, nat>,
    maxDrawdown: Option<real>, costAdjustedAvg5: Option<real>)

  /** What a summary says of the evaluated rows. */
  ghost predicate Summarizes(s: Summary, rows: seq<EvaluatedRow>) {
    var buys := BuyRows(rows);
    && s.signalCount == |rows|
    && s.buyCount == |buys|
    && s.passCount == CountOf(rows, IsAction(PassSignal))
    && s.avoidCount == CountOf(rows, IsAction(AvoidSignal))
    && (forall h :: h in HORIZONS ==>
          && h in s.winRate && s.winRate[h] == WinRate(buys, Horizon(h))
          && h in s.avgReturn && s.avgReturn[h] == AvgReturn(buys, Horizon(h))
          && h in s.missing && s.missing[h] == |buys| - Samples(buys, Horizon(h)))
    && s.maxDrawdown == WorstDrawdown(buys)
    && s.costAdjustedAvg5 == AvgReturn(buys, CostAdjusted())
  }

  method Aggregate(rows: seq<EvaluatedRow>) returns (s: Summary)
    ensures Summarizes(s, rows)
  {
    var buys := BuyRows(rows);
    CountIsFilterLength(rows, IsAction(BuySignal));
    var winRate: map<int, Option<real>>, avgReturn: map<int, Option<real>> := map[], map[];
    var missing: map<int, nat> := map[];
    for i := 0 to |HORIZONS|
      invariant forall k :: 0 <= k < i ==>
                  && HORIZONS[k] in winRate && winRate[HORIZONS[k]] == WinRate(buys, Horizon(HORIZONS[k]))
                  && HORIZONS[k] in avgReturn && avgReturn[HORIZONS[k]] == AvgReturn(buys, Horizon(HORIZONS[k]))
                  && HORIZONS[k] in missing && missing[HORIZONS[k]] == |buys| - Samples(buys, Horizon(HORIZONS[k]))
    {
      var h := HORIZONS[i];
      var win, avg, gone := ComputeMetrics(buys, Horizon(h));
      winRate, avgReturn, missing := winRate[h := win], avgReturn[h := avg], missing[h := gone];
    }
    var _, adjusted, _ := ComputeMetrics(buys, CostAdjusted());
    s := Summary(|rows|, CountOf(rows, IsAction(BuySignal)), CountOf(rows, IsAction(PassSignal)),
                 CountOf(rows, IsAction(AvoidSignal)), winRate, avgReturn, missing, WorstDrawdown(buys), adjusted);
  }

  // ---------------------------------------------------------------- regime breakdown

  const UNCLASSIFIED_BUCKET := "UNCLASSIFIED"

  function BucketOf(): EvaluatedRow -> string {
    (r: EvaluatedRow) => if r.regime.Some? && r.regime.value != "" then r.regime.value else UNCLASSIFIED_BUCKET
  }

  datatype RegimeEntry = RegimeEntry(
    regime: string, buyCount: nat, winRate5: Option<real>, avgReturn5: Option<real>, costAdjustedAvg5: Option<real>)

  function EntryFrom(name: string, rows: seq<EvaluatedRow>): RegimeEntry {
    RegimeEntry(name, |rows|, WinRate(rows, Horizon(5)), AvgReturn(rows, Horizon(5)), AvgReturn(rows, CostAdjusted()))
  }

  function EntryOf(buys: seq<EvaluatedRow>): string -> RegimeEntry {
    (name: string) => EntryFrom(name, Filter(buys, InBucket(BucketOf(), name)))
  }

  function LargestRegime(): (RegimeEntry, RegimeEntry) -> bool {
    (a: RegimeEntry, b: RegimeEntry) => BucketBefore(a.buyCount, a.regime, b.buyCount, b.regime)
  }

  function RegimeBreakdown(rows: seq<EvaluatedRow>): seq<RegimeEntry> {
    var buys := BuyRows(rows);
    SortBy(MapSeq(Buckets(buys, BucketOf()), EntryOf(buys)), LargestRegime())
  }

  method MakeEntry(name: string, rows: seq<EvaluatedRow>) returns (e: RegimeEntry)
    ensures e == EntryFrom(name, rows)
  {
    var win, avg, _ := ComputeMetrics(rows, Horizon(5));
    var _, adjusted, _ := ComputeMetrics(rows, CostAdjusted());
    e := RegimeEntry(name, |rows|, win, avg, adjusted);
  }

  method BuildRegimeBreakdown(rows: seq<EvaluatedRow>) returns (entries: seq<RegimeEntry>)
    ensures entries == RegimeBreakdown(rows)
  {
    hide EntryFrom, Buckets, SortBy, Filter;
    var buys := BuyRows(rows);
    var order, byBucket := GroupBy(buys, BucketOf());
    entries := [];
    for i := 0 to |order|
      invariant |entries| == i && forall k :: 0 <= k < i ==> entries[k] == EntryOf(buys)(order[k])
    {
      assert order[i] in order;
      var entry := MakeEntry(order[i], byBucket[order[i]]);
      entries := entries + [entry];
    }
    assert entries == MapSeq(order, EntryOf(buys));
    entries := SortBy(entries, LargestRegime());
  }

  // ---------------------------------------------------------------- a whole run

  /** The dry run of a strategy: select, evaluate row by row, aggregate, break down. */
  method RunBacktest(ctx: Context, recs: seq<Recommendation>, start: Option<int>, end: Option<int>, limit: Option<int>)
    returns (summary: Summary, breakdown: seq<RegimeEntry>, rows: seq<Recommendation>)
    requires RanksUnique(recs)
    ensures IsSelection(rows, recs, start, end, limit)
    ensures Summarizes(summary, MapSeq(rows, Evaluator(ctx)))
    ensures breakdown == RegimeBreakdown(MapSeq(rows, Evaluator(ctx)))
  {
    var selected := FetchRecommendations(recs, start, end, limit);
    var evaluated := [];
    for i := 0 to |selected|
      invariant |evaluated| == i && forall k :: 0 <= k < i ==> evaluated[k] == Evaluate(ctx, selected[k])
    {
      evaluated := evaluated + [Evaluate(ctx, selected[i])];
    }
    assert evaluated == MapSeq(selected, Evaluator(ctx));
    summary := Aggregate(evaluated);
    breakdown := BuildRegimeBreakdown(evaluated);
    rows := selected;
  }
}
