/** The analyst-report and theme-signal scores of app/analysis/report_score_calculator.py and
    how far they can move a recommendation's total. */
module ReportScore {
  import opened Wrappers
  import opened Sequences
  import opened Strings
  import opened Decimals

  // ---------------------------------------------------------------- report score

  datatype RatingCounts = RatingCounts(strongBuy: int, buy: int, hold: int, sell: int, strongSell: int)

  datatype ReportInput = ReportInput(
    reportCount: int,
    avgTargetPrice: Option<real>,
    latestClose: Option<real>,
    ratings: RatingCounts,
    ageDays: Option<int>)

  function RecencyBonus(ageDays: Option<int>): Option<real> {
    match ageDays
    case None => None
    case Some(age) => Some(if age <= 14 then 5.0 else if age <= 30 then 3.0 else 0.0)
  }

  function WeightedRatings(r: RatingCounts): int {
    2 * r.strongBuy + r.buy - r.sell - 2 * r.strongSell
  }

  function RatingScoreAvg(reportCount: int, r: RatingCounts): Option<real> {
    if reportCount <= 0 then None else Some(RoundBasis(WeightedRatings(r) as real / (reportCount as real)))
  }

  function TargetUpsidePct(avgTargetPrice: Option<real>, latestClose: Option<real>): Option<real> {
    if avgTargetPrice.None? || latestClose.None? || latestClose.value <= 0.0 then None
    else Some(RoundBasis(Clip((avgTargetPrice.value - latestClose.value) / latestClose.value * 100.0, -40.0, 60.0)))
  }

  function CalculateReportScore(input: ReportInput): Option<real> {
    if input.reportCount <= 0 then None
    else
      var upside := TargetUpsidePct(input.avgTargetPrice, input.latestClose);
      var rating := RatingScoreAvg(input.reportCount, input.ratings);
      var score := 50.0 + OrZero(upside) * 0.5 + OrZero(rating) * 10.0 + OrZero(RecencyBonus(input.ageDays));
      Some(RoundCents(Clip(score, 0.0, 100.0)))
  }

  /** Rating counts that a set of reportCount reports can give. */
  predicate CountsFit(input: ReportInput) {
    var r := input.ratings;
    && r.strongBuy >= 0 && r.buy >= 0 && r.hold >= 0 && r.sell >= 0 && r.strongSell >= 0
    && r.strongBuy + r.buy + r.hold + r.sell + r.strongSell <= input.reportCount
  }

  lemma RatingAverageRange(input: ReportInput)
    requires input.reportCount > 0 && CountsFit(input)
    ensures -2.0 <= RatingScoreAvg(input.reportCount, input.ratings).value <= 2.0
  {
    var w, n := WeightedRatings(input.ratings) as real, input.reportCount as real;
    assert -2.0 * n <= w <= 2.0 * n;
    Divided(w, n);
    RoundBasisBetween(w / n, -2, 2);
  }

  lemma Divided(w: real, n: real)
    requires n > 0.0 && -2.0 * n <= w <= 2.0 * n
    ensures -2.0 <= w / n <= 2.0
  {
    var q := w / n;
    assert q * n == w;
    ScaleKeepsOrder(q, 2.0, n);
    ScaleKeepsOrder(-2.0, q, n);
  }

  lemma ScaleKeepsOrder(a: real, b: real, n: real)
    requires n > 0.0
    ensures a * n <= b * n <==> a <= b
  {
    if a < b {
      assert (b - a) * n > 0.0;
    } else if a > b {
      assert (a - b) * n > 0.0;
    }
  }

  lemma ReportScoreRange(input: ReportInput)
    requires CountsFit(input)
    ensures CalculateReportScore(input).Some? ==> 10.0 <= CalculateReportScore(input).value <= 100.0
  {
    if input.reportCount > 0 {
      RatingAverageRange(input);
      var upside := TargetUpsidePct(input.avgTargetPrice, input.latestClose);
      if upside.Some? {
        var raw := (input.avgTargetPrice.value - input.latestClose.value) / input.latestClose.value * 100.0;
        RoundBasisBetween(Clip(raw, -40.0, 60.0), -40, 60);
      }
      var rating := RatingScoreAvg(input.reportCount, input.ratings);
      var score := 50.0 + OrZero(upside) * 0.5 + OrZero(rating) * 10.0 + OrZero(RecencyBonus(input.ageDays));
      assert score >= 10.0;
      RoundCentsBetween(Clip(score, 0.0, 100.0), 10, 100);
    }
  }

  // ---------------------------------------------------------------- theme signal score

  datatype ThemeMapping = ThemeMapping(direction: Option<string>, strength: Option<real>)

  datatype SignalEvent = SignalEvent(direction: Option<string>, strength: Option<real>, eventType: string)

  function DirectionWeight(direction: Option<string>): real {
    match direction
    case None => 0.0
    case Some(d) => if Upper(d) == "POSITIVE" then 1.0 else if Upper(d) == "NEGATIVE" then -1.0 else 0.0
  }

  function Strength(value: Option<real>): real {
    match value
    case None => 1.0
    case Some(v) => Clip(v, 0.0, 1.0)
  }

  function ThemePoints(): ThemeMapping -> real {
    (m: ThemeMapping) => DirectionWeight(m.direction) * Strength(m.strength)
  }

  function EventPoints(): SignalEvent -> real {
    (e: SignalEvent) => DirectionWeight(e.direction) * Strength(e.strength)
  }

  function IsRiskWarning(): SignalEvent -> bool {
    (e: SignalEvent) => Upper(e.eventType) == "RISK_WARNING"
  }

  function AverageSignalPoints<T>(rows: seq<T>, points: T -> real): Option<real> {
    if rows == [] then None else Some(RoundCents(SumOf(rows, points) / (|rows| as real) * 10.0))
  }

  function CalculateThemeSignalScore(mappings: seq<ThemeMapping>, events: seq<SignalEvent>): Option<real> {
    if mappings == [] && events == [] then None
    else
      var penalty := RoundCents(Clip(CountOf(events, IsRiskWarning()) as real * 2.5, 0.0, 10.0));
      var score := 50.0 + OrZero(AverageSignalPoints(mappings, ThemePoints()))
                   + OrZero(AverageSignalPoints(events, EventPoints())) - penalty;
      Some(RoundCents(Clip(score, 0.0, 100.0)))
  }

  lemma {:induction false} SumRange<T>(rows: seq<T>, points: T -> real)
    requires forall x: T :: x in rows ==> -1.0 <= points(x) <= 1.0
    ensures -(|rows| as real) <= SumOf(rows, points) <= |rows| as real
  {
    if rows != [] {
      assert rows[0] in rows;
      SumRange(rows[1..], points);
    }
  }

  lemma AverageRange<T>(rows: seq<T>, points: T -> real)
    requires forall x: T :: x in rows ==> -1.0 <= points(x) <= 1.0
    ensures -10.0 <= OrZero(AverageSignalPoints(rows, points)) <= 10.0
  {
    if rows != [] {
      SumRange(rows, points);
      var total, n := SumOf(rows, points), |rows| as real;
      Divided(total * 2.0, n);
      assert total * 2.0 / n == total / n * 2.0;
      RoundCentsBetween(total / n * 10.0, -10, 10);
    }
  }

  lemma ThemeScoreRange(mappings: seq<ThemeMapping>, events: seq<SignalEvent>)
    ensures CalculateThemeSignalScore(mappings, events).Some? ==>
              20.0 <= CalculateThemeSignalScore(mappings, events).value <= 70.0
  {
    AverageRange(mappings, ThemePoints());
    AverageRange(events, EventPoints());
    var raw := Clip(CountOf(events, IsRiskWarning()) as real * 2.5, 0.0, 10.0);
    RoundCentsBetween(raw, 0, 10);
    var score := 50.0 + OrZero(AverageSignalPoints(mappings, ThemePoints()))
                 + OrZero(AverageSignalPoints(events, EventPoints())) - RoundCents(raw);
    RoundCentsBetween(Clip(score, 0.0, 100.0), 20, 70);
  }

  // ---------------------------------------------------------------- adjustment of the total

  function RawAdjustment(score: Option<real>): real {
    if score.Some? then (score.value - 50.0) * 0.1 else 0.0
  }

  function Adjustment(score: Option<real>): real {
    if score.Some? then Clip((score.value - 50.0) * 0.1, -5.0, 5.0) else 0.0
  }

  /** The total before its final rounding. */
  function AdjustedTotal(base: real, report: Option<real>, theme: Option<real>): real {
    Clip(base + Adjustment(report) + Adjustment(theme), 0.0, 100.0)
  }

  datatype ScoreAdjustment = ScoreAdjustment(report: real, theme: real, total: real)

  function CalculateScoreAdjustment(base: real, report: Option<real>, theme: Option<real>): ScoreAdjustment {
    ScoreAdjustment(RoundCents(Adjustment(report)), RoundCents(Adjustment(theme)),
                    RoundBasis(AdjustedTotal(base, report, theme)))
  }

  /** For any reports with consistent rating counts and any themes and events, the +/-5 clip never
      fires, the reported adjustments lie in [-4,5] and [-3,2], and a base total in [0,100] moves
      down by at most 7 and up by at most 7 before its final rounding. */
  lemma TotalMovesAtMostSeven(base: real, input: ReportInput, mappings: seq<ThemeMapping>, events: seq<SignalEvent>)
    requires 0.0 <= base <= 100.0 && CountsFit(input)
    ensures var report, theme := CalculateReportScore(input), CalculateThemeSignalScore(mappings, events);
            var adjustment := CalculateScoreAdjustment(base, report, theme);
            && Adjustment(report) == RawAdjustment(report) && Adjustment(theme) == RawAdjustment(theme)
            && -4.0 <= adjustment.report <= 5.0
            && -3.0 <= adjustment.theme <= 2.0
            && -7.0 <= AdjustedTotal(base, report, theme) - base <= 7.0
            && 0.0 <= adjustment.total <= 100.0
  {
    ReportScoreRange(input);
    ThemeScoreRange(mappings, events);
    var report, theme := CalculateReportScore(input), CalculateThemeSignalScore(mappings, events);
    RoundCentsBetween(Adjustment(report), -4, 5);
    RoundCentsBetween(Adjustment(theme), -3, 2);
    RoundBasisBetween(AdjustedTotal(base, report, theme), 0, 100);
  }

  lemma UniformPoints<T>(rows: seq<T>, points: T -> real, direction: real)
    requires rows != [] && (direction == 1.0 || direction == -1.0)
    requires forall x :: x in rows ==> points(x) == direction
    ensures AverageSignalPoints(rows, points) == Some(direction * 10.0)
  {
    ConstantSum(rows, points, direction);
    var n := |rows| as real;
    assert n > 0.0 && n / n == 1.0 && (-n) / n == -1.0;
    assert SumOf(rows, points) / n == direction;
  }

  lemma ExtremeReports()
    ensures CalculateReportScore(ReportInput(1, Some(10.0), Some(100.0), RatingCounts(0, 0, 0, 0, 1), None))
            == Some(10.0)
    ensures CalculateReportScore(ReportInput(1, Some(200.0), Some(100.0), RatingCounts(1, 0, 0, 0, 0), Some(0)))
            == Some(100.0)
  {
    assert TargetUpsidePct(Some(10.0), Some(100.0)) == Some(-40.0);
    assert TargetUpsidePct(Some(200.0), Some(100.0)) == Some(60.0);
    assert RatingScoreAvg(1, RatingCounts(0, 0, 0, 0, 1)) == Some(-2.0);
    assert RatingScoreAvg(1, RatingCounts(1, 0, 0, 0, 0)) == Some(2.0);
  }

  lemma UpperUnchanged(s: string)
    requires forall i :: 0 <= i < |s| ==> !('a' <= s[i] <= 'z')
    ensures Upper(s) == s
  {
  }

  lemma BearishTheme(m: ThemeMapping, e: SignalEvent, events: seq<SignalEvent>)
    requires ThemePoints()(m) == -1.0 && EventPoints()(e) == -1.0 && IsRiskWarning()(e)
    requires |events| == 4 && forall x :: x in events ==> x == e
    ensures CalculateThemeSignalScore([m], events) == Some(20.0)
  {
    UniformPoints([m], ThemePoints(), -1.0);
    UniformPoints(events, EventPoints(), -1.0);
    CountAll(events, IsRiskWarning());
    assert RoundCents(10.0) == 10.0 && RoundCents(20.0) == 20.0;
  }

  lemma BullishTheme(m: ThemeMapping, e: SignalEvent)
    requires ThemePoints()(m) == 1.0 && EventPoints()(e) == 1.0 && !IsRiskWarning()(e)
    ensures CalculateThemeSignalScore([m], [e]) == Some(70.0)
  {
    UniformPoints([m], ThemePoints(), 1.0);
    UniformPoints([e], EventPoints(), 1.0);
    assert CountOf([e], IsRiskWarning()) == 0 by { assert [e][1..] == []; }
    assert RoundCents(0.0) == 0.0 && RoundCents(70.0) == 70.0;
  }

  lemma NegativeWeighs(d: string)
    requires d == "NEGATIVE"
    ensures DirectionWeight(Some(d)) == -1.0
  {
    UpperUnchanged(d);
    assert d[0] != "POSITIVE"[0];
  }

  lemma PositiveWeighs(d: string)
    requires d == "POSITIVE"
    ensures DirectionWeight(Some(d)) == 1.0
  {
    UpperUnchanged(d);
  }

  lemma WarningCounts(t: string)
    requires t == "RISK_WARNING" || t == "NEWS"
    ensures (Upper(t) == "RISK_WARNING") <==> t == "RISK_WARNING"
  {
    UpperUnchanged(t);
  }

  /** The bound is reached downwards: one strong-sell report with its target far below the price,
      and only negative signals, four of them risk warnings. */
  lemma FallBySeven() returns (input: ReportInput, mappings: seq<ThemeMapping>, events: seq<SignalEvent>)
    ensures CountsFit(input)
    ensures AdjustedTotal(50.0, CalculateReportScore(input), CalculateThemeSignalScore(mappings, events)) == 43.0
  {
    hide Upper, DirectionWeight, CalculateReportScore, CalculateThemeSignalScore;
    var down, kind := "NEGATIVE", "RISK_WARNING";
    var event := SignalEvent(Some(down), None, kind);
    input := ReportInput(1, Some(10.0), Some(100.0), RatingCounts(0, 0, 0, 0, 1), None);
    mappings, events := [ThemeMapping(Some(down), None)], [event, event, event, event];
    ExtremeReports();
    NegativeWeighs(down);
    WarningCounts(kind);
    BearishTheme(mappings[0], event, events);
  }

  /** And upwards: a fresh strong buy with its target far above, and only positive signals. */
  lemma RiseBySeven() returns (input: ReportInput, mappings: seq<ThemeMapping>, events: seq<SignalEvent>)
    ensures CountsFit(input)
    ensures AdjustedTotal(50.0, CalculateReportScore(input), CalculateThemeSignalScore(mappings, events)) == 57.0
  {
    hide Upper, DirectionWeight, CalculateReportScore, CalculateThemeSignalScore;
    var up, kind := "POSITIVE", "NEWS";
    input := ReportInput(1, Some(200.0), Some(100.0), RatingCounts(1, 0, 0, 0, 0), Some(0));
    mappings, events := [ThemeMapping(Some(up), None)], [SignalEvent(Some(up), None, kind)];
    ExtremeReports();
    PositiveWeighs(up);
    WarningCounts(kind);
    BullishTheme(mappings[0], events[0]);
  }
}
