/** Walk-forward validation (app/backtest/walk_forward.py): the folds tile time, and their
    out-of-sample counts add up to one run over the whole tiled interval. Dates are day numbers. */
module WalkForward {
  import opened Wrappers
  import opened Sequences
  import opened BacktestEngine

  datatype Fold = Fold(index: nat, trainStart: int, trainEnd: int, validateStart: int, validateEnd: int)

  datatype Windows = Windows(start: int, end: int, train: int, validate: int, gap: int)

  /** The fold the loop builds when its cursor has advanced i times. */
  function FoldAt(w: Windows, i: nat): Fold {
    var cursor := w.start + i * w.validate;
    var trainEnd := cursor + (w.train - 1);
    var validateStart := trainEnd + (w.gap + 1);
    Fold(i, cursor, trainEnd, validateStart, validateStart + (w.validate - 1))
  }

  predicate Fits(w: Windows, i: nat) {
    FoldAt(w, i).validateEnd <= w.end
  }

  /** Days that out-of-sample windows can use: the range less the first training window and gap. */
  function UsableDays(w: Windows): int {
    w.end - w.start + 1 - w.train - w.gap
  }

  function FoldCount(w: Windows): nat
    requires w.validate >= 1
  {
    if UsableDays(w) < 0 then 0 else UsableDays(w) / w.validate
  }

  /** The loop ends: a positive validation window, or a first fold that does not fit. */
  predicate Terminates(w: Windows) {
    w.validate >= 1 || !Fits(w, 0)
  }

  lemma DivisionFits(n: nat, d: int, i: nat)
    requires d >= 1 && n >= 0
    ensures i < n / d <==> (i + 1) * d <= n
  {
    var q := n / d;
    assert q * d <= n < (q + 1) * d;
    if i < q {
      assert (i + 1) * d <= q * d;
    } else {
      assert (i + 1) * d >= (q + 1) * d;
    }
  }

  lemma FitsExactly(w: Windows, i: nat)
    requires w.validate >= 1
    ensures Fits(w, i) <==> i < FoldCount(w)
  {
    assert (i + 1) * w.validate == i * w.validate + w.validate;
    assert Fits(w, i) <==> (i + 1) * w.validate <= UsableDays(w);
    if UsableDays(w) >= 0 {
      DivisionFits(UsableDays(w), w.validate, i);
    } else {
      assert (i + 1) * w.validate >= 0;
    }
  }

  method GenerateFolds(w: Windows) returns (folds: seq<Fold>)
    requires Terminates(w)
    ensures |folds| == if w.validate >= 1 then FoldCount(w) else 0
    ensures forall i :: 0 <= i < |folds| ==> folds[i] == FoldAt(w, i)
  {
    folds := [];
    var foldIndex, cursor := 0, w.start;
    while true
      invariant |folds| == foldIndex && cursor == w.start + foldIndex * w.validate
      invariant forall i :: 0 <= i < |folds| ==> folds[i] == FoldAt(w, i)
      invariant w.validate >= 1 ==> foldIndex <= FoldCount(w)
      invariant w.validate < 1 ==> foldIndex == 0
      decreases if w.validate >= 1 then FoldCount(w) - foldIndex else 0
    {
      var trainStart := cursor;
      var trainEnd := trainStart + (w.train - 1);
      var validateStart := trainEnd + (w.gap + 1);
      var validateEnd := validateStart + (w.validate - 1);
      if w.validate >= 1 {
        FitsExactly(w, foldIndex);
      }
      if validateEnd > w.end {
        break;
      }
      folds := folds + [Fold(foldIndex, trainStart, trainEnd, validateStart, validateEnd)];
      assert (foldIndex + 1) * w.validate == foldIndex * w.validate + w.validate;
      foldIndex := foldIndex + 1;
      cursor := cursor + w.validate;
    }
  }

  /** The loop's exit test is met at some advance of the cursor exactly when Terminates holds. */
  lemma TerminatesExactly(w: Windows)
    ensures (exists i: nat :: !Fits(w, i)) <==> Terminates(w)
  {
    if w.validate >= 1 {
      FitsExactly(w, FoldCount(w));
    } else if Fits(w, 0) {
      forall i: nat ensures Fits(w, i) {
        assert i * w.validate <= 0;
        assert FoldAt(w, i).validateEnd <= FoldAt(w, 0).validateEnd;
      }
    }
  }

  /** A validation window of no days: every fold of a one-day range fits. */
  lemma FoldsWithoutEnd() returns (w: Windows)
    ensures w.validate == 0 && w.start == w.end && forall i: nat :: Fits(w, i)
  {
    w := Windows(0, 0, 1, 0, 0);
  }

  /** Consecutive out-of-sample windows abut, the first begins after the first training window and
      the gap, each has the validation length, and none overlaps its own training window exactly
      when the gap is not negative. */
  lemma FoldsTile(w: Windows, i: nat)
    ensures FoldAt(w, 0).validateStart == w.start + w.train + w.gap
    ensures FoldAt(w, i + 1).validateStart == FoldAt(w, i).validateEnd + 1
    ensures FoldAt(w, i).validateEnd - FoldAt(w, i).validateStart + 1 == w.validate
    ensures FoldAt(w, i).trainEnd - FoldAt(w, i).trainStart + 1 == w.train
    ensures FoldAt(w, i).trainEnd < FoldAt(w, i).validateStart <==> w.gap >= 0
  {
    assert (i + 1) * w.validate == i * w.validate + w.validate;
  }

  // ---------------------------------------------------------------- conservation

  function Signals(ctx: Context, a: Action): Recommendation -> bool {
    (r: Recommendation) => ctx.strategy(r.snapshot) == a
  }

  function SignalsIn(ctx: Context, a: Action, from: int, to: int): Recommendation -> bool {
    (r: Recommendation) => from <= r.runDate <= to && ctx.strategy(r.snapshot) == a
  }

  function CountIn(recs: seq<Recommendation>, ctx: Context, a: Action, from: int, to: int): nat {
    CountOf(recs, SignalsIn(ctx, a, from, to))
  }

  lemma {:induction false} AdjacentCountsAdd(recs: seq<Recommendation>, ctx: Context, a: Action, from: int, mid: int,
                                             to: int)
    requires from <= mid + 1 && mid <= to
    ensures CountIn(recs, ctx, a, from, to) == CountIn(recs, ctx, a, from, mid) + CountIn(recs, ctx, a, mid + 1, to)
  {
    if recs != [] { AdjacentCountsAdd(recs[1..], ctx, a, from, mid, to); }
  }

  lemma {:induction false} EvaluationCounts(ctx: Context, rows: seq<Recommendation>, a: Action)
    ensures CountOf(MapSeq(rows, Evaluator(ctx)), IsAction(a)) == CountOf(rows, Signals(ctx, a))
  {
    if rows != [] { EvaluationCounts(ctx, rows[1..], a); }
  }

  lemma {:induction false} CountOfKept(recs: seq<Recommendation>, ctx: Context, a: Action, from: int, to: int)
    ensures CountOf(Filter(recs, InRange(Some(from), Some(to))), Signals(ctx, a)) == CountIn(recs, ctx, a, from, to)
  {
    if recs != [] {
      CountOfKept(recs[1..], ctx, a, from, to);
      var rest := Filter(recs[1..], InRange(Some(from), Some(to)));
      if InRange(Some(from), Some(to))(recs[0]) {
        assert ([recs[0]] + rest)[1..] == rest;
      } else {
        assert [] + rest == rest;
      }
    }
  }

  /** What an unlimited run over a window counts of an action. */
  lemma RunCounts(ctx: Context, recs: seq<Recommendation>, rows: seq<Recommendation>, from: int, to: int, a: Action)
    requires IsSelection(rows, recs, Some(from), Some(to), None)
    ensures CountOf(MapSeq(rows, Evaluator(ctx)), IsAction(a)) == CountIn(recs, ctx, a, from, to)
  {
    var kept := Filter(recs, InRange(Some(from), Some(to)));
    var full: seq<Recommendation> :| multiset(full) == multiset(kept) && Ordered(full, NewestFirst())
      && rows == Limited(full, None);
    EvaluationCounts(ctx, rows, a);
    CountPermutation(rows, kept, Signals(ctx, a));
    CountOfKept(recs, ctx, a, from, to);
  }

  lemma {:induction false} ActionsPartition(rows: seq<EvaluatedRow>)
    ensures CountOf(rows, IsAction(BuySignal)) + CountOf(rows, IsAction(PassSignal))
            + CountOf(rows, IsAction(AvoidSignal)) == |rows|
  {
    if rows != [] { ActionsPartition(rows[1..]); }
  }

  datatype Counts = Counts(signals: nat, buys: nat, passes: nat, avoids: nat)

  const NO_COUNTS := Counts(0, 0, 0, 0)

  function Plus(c: Counts, s: Summary): Counts {
    Counts(c.signals + s.signalCount, c.buys + s.buyCount, c.passes + s.passCount, c.avoids + s.avoidCount)
  }

  function CountsOver(recs: seq<Recommendation>, ctx: Context, from: int, to: int): Counts {
    var b, p := CountIn(recs, ctx, BuySignal, from, to), CountIn(recs, ctx, PassSignal, from, to);
    var a := CountIn(recs, ctx, AvoidSignal, from, to);
    Counts(b + p + a, b, p, a)
  }

  lemma SummaryCounts(ctx: Context, recs: seq<Recommendation>, rows: seq<Recommendation>, s: Summary, from: int,
                      to: int)
    requires IsSelection(rows, recs, Some(from), Some(to), None) && Summarizes(s, MapSeq(rows, Evaluator(ctx)))
    ensures Plus(NO_COUNTS, s) == CountsOver(recs, ctx, from, to)
  {
    var evaluated := MapSeq(rows, Evaluator(ctx));
    RunCounts(ctx, recs, rows, from, to, BuySignal);
    RunCounts(ctx, recs, rows, from, to, PassSignal);
    RunCounts(ctx, recs, rows, from, to, AvoidSignal);
    CountIsFilterLength(evaluated, IsAction(BuySignal));
    ActionsPartition(evaluated);
  }

  datatype FoldResult = FoldResult(fold: Fold, inSample: Summary, outOfSample: Summary)

  function TotalOutOfSample(results: seq<FoldResult>): Counts {
    if results == [] then NO_COUNTS
    else Plus(TotalOutOfSample(results[..|results| - 1]), results[|results| - 1].outOfSample)
  }

  lemma NoResults()
    ensures TotalOutOfSample([]) == NO_COUNTS
  {
  }

  lemma EmptyWindow(recs: seq<Recommendation>, ctx: Context, a: Action, from: int, to: int)
    requires to < from
    ensures CountIn(recs, ctx, a, from, to) == 0
  {
    if recs != [] { EmptyWindow(recs[1..], ctx, a, from, to); }
  }

  lemma CountsExtend(recs: seq<Recommendation>, ctx: Context, from: int, mid: int, to: int)
    requires from <= mid + 1 && mid <= to
    ensures var x, y := CountsOver(recs, ctx, from, mid), CountsOver(recs, ctx, mid + 1, to);
            CountsOver(recs, ctx, from, to)
            == Counts(x.signals + y.signals, x.buys + y.buys, x.passes + y.passes, x.avoids + y.avoids)
  {
    AdjacentCountsAdd(recs, ctx, BuySignal, from, mid, to);
    AdjacentCountsAdd(recs, ctx, PassSignal, from, mid, to);
    AdjacentCountsAdd(recs, ctx, AvoidSignal, from, mid, to);
  }

  lemma NothingBefore(recs: seq<Recommendation>, ctx: Context, from: int)
    ensures CountsOver(recs, ctx, from, from - 1) == NO_COUNTS
  {
    EmptyWindow(recs, ctx, BuySignal, from, from - 1);
    EmptyWindow(recs, ctx, PassSignal, from, from - 1);
    EmptyWindow(recs, ctx, AvoidSignal, from, from - 1);
  }

  /** The summary is that of an unlimited run over the recommendations of a window. */
  ghost predicate SummaryOf(s: Summary, ctx: Context, recs: seq<Recommendation>, from: int, to: int) {
    exists rows: seq<Recommendation> ::
      IsSelection(rows, recs, Some(from), Some(to), None) && Summarizes(s, MapSeq(rows, Evaluator(ctx)))
  }

  /** The result of fold i: its windows, and the summaries of the runs over each of them. */
  ghost predicate IsFoldResult(r: FoldResult, ctx: Context, recs: seq<Recommendation>, w: Windows, i: nat) {
    && r.fold == FoldAt(w, i)
    && SummaryOf(r.inSample, ctx, recs, r.fold.trainStart, r.fold.trainEnd)
    && SummaryOf(r.outOfSample, ctx, recs, r.fold.validateStart, r.fold.validateEnd)
  }

  ghost predicate AreFoldResults(results: seq<FoldResult>, ctx: Context, recs: seq<Recommendation>, w: Windows) {
    forall i :: 0 <= i < |results| ==> IsFoldResult(results[i], ctx, recs, w, i)
  }

  /** The counts of a summary are those of its window. */
  lemma SummaryCountsWindow(s: Summary, ctx: Context, recs: seq<Recommendation>, from: int, to: int)
    requires SummaryOf(s, ctx, recs, from, to)
    ensures Plus(NO_COUNTS, s) == CountsOver(recs, ctx, from, to)
  {
    hide IsSelection, Summarizes, CountsOver, Plus, MapSeq;
    var rows: seq<Recommendation> :|
      IsSelection(rows, recs, Some(from), Some(to), None) && Summarizes(s, MapSeq(rows, Evaluator(ctx)));
    SummaryCounts(ctx, recs, rows, s, from, to);
  }

  /** One fold extends the total over the tiled interval by the fold's window. */
  lemma FoldExtendsTotal(ctx: Context, recs: seq<Recommendation>, results: seq<FoldResult>, r: FoldResult,
                         from: int, mid: int, to: int)
    requires from <= mid + 1 && mid <= to
    requires TotalOutOfSample(results) == CountsOver(recs, ctx, from, mid)
    requires SummaryOf(r.outOfSample, ctx, recs, mid + 1, to)
    ensures TotalOutOfSample(results + [r]) == CountsOver(recs, ctx, from, to)
  {
    hide SummaryOf, CountsOver;
    SummaryCountsWindow(r.outOfSample, ctx, recs, mid + 1, to);
    CountsExtend(recs, ctx, from, mid, to);
    assert (results + [r])[..|results|] == results;
  }

  /** The out-of-sample counts of the folds' own runs add up to those of the interval they tile. */
  lemma {:induction false} FoldTotals(ctx: Context, recs: seq<Recommendation>, w: Windows, results: seq<FoldResult>)
    requires AreFoldResults(results, ctx, recs, w) && (results != [] ==> w.validate >= 1)
    ensures var first := w.start + w.train + w.gap;
            TotalOutOfSample(results) == CountsOver(recs, ctx, first, first + |results| * w.validate - 1)
    decreases |results|
  {
    hide SummaryOf, CountsOver, TotalOutOfSample;
    var first := w.start + w.train + w.gap;
    if results == [] {
      NothingBefore(recs, ctx, first);
      NoResults();
    } else {
      var last := |results| - 1;
      var front, r := results[..last], results[last];
      FoldTotals(ctx, recs, w, front);
      var covered := last * w.validate;
      assert covered >= 0 && |results| * w.validate == covered + w.validate;
      assert IsFoldResult(r, ctx, recs, w, last);
      FoldExtendsTotal(ctx, recs, front, r, first, first + covered - 1, first + covered + w.validate - 1);
      assert front + [r] == results;
    }
  }

  /** Walk-forward run: for each fold that fits, a run over its training and one over its validation
      window. */
  method RunWalkForward(ctx: Context, recs: seq<Recommendation>, w: Windows) returns (results: seq<FoldResult>)
    requires RanksUnique(recs) && Terminates(w)
    ensures |results| == if w.validate >= 1 then FoldCount(w) else 0
    ensures AreFoldResults(results, ctx, recs, w)
  {
    hide RanksUnique, IsSelection, Summarizes, RegimeBreakdown, FoldCount, MapSeq;
    var folds := GenerateFolds(w);
    results := [];
    for i := 0 to |folds|
      invariant |results| == i && AreFoldResults(results, ctx, recs, w)
    {
      var f := folds[i];
      var inSample, _, trained := RunBacktest(ctx, recs, Some(f.trainStart), Some(f.trainEnd), None);
      var outOfSample, _, validated := RunBacktest(ctx, recs, Some(f.validateStart), Some(f.validateEnd), None);
      assert SummaryOf(inSample, ctx, recs, f.trainStart, f.trainEnd);
      assert SummaryOf(outOfSample, ctx, recs, f.validateStart, f.validateEnd);
      results := results + [FoldResult(f, inSample, outOfSample)];
    }
  }

  /** Conservation: whatever the recommendations and the pure strategy, the out-of-sample signal,
      BUY, PASS and AVOID counts of the folds add up to those of one run over the union of their
      out-of-sample windows. */
  lemma WalkForwardConserves(ctx: Context, recs: seq<Recommendation>, w: Windows, results: seq<FoldResult>,
                             summary: Summary)
    requires AreFoldResults(results, ctx, recs, w) && results != [] && w.validate >= 1
    requires SummaryOf(summary, ctx, recs, results[0].fold.validateStart, results[|results| - 1].fold.validateEnd)
    ensures TotalOutOfSample(results)
            == Counts(summary.signalCount, summary.buyCount, summary.passCount, summary.avoidCount)
  {
    hide SummaryOf, CountsOver, TotalOutOfSample;
    var last := |results| - 1;
    assert IsFoldResult(results[0], ctx, recs, w, 0) && IsFoldResult(results[last], ctx, recs, w, last);
    assert |results| * w.validate == last * w.validate + w.validate;
    FoldTotals(ctx, recs, w, results);
    SummaryCountsWindow(summary, ctx, recs, results[0].fold.validateStart, results[last].fold.validateEnd);
  }
}
