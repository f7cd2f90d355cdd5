/** The scores of app/analysis/report_score_calculator.py against their formulas without the
    intermediate roundings, which move a score by less than two hundredths. */
module ScoreLaws {
  import opened Wrappers
  import opened Sequences
  import opened Strings
  import opened Decimals
  import opened ReportScore

  function Bounded(x: real, lo: real, hi: real): real {
    if x < lo then lo else if x > hi then hi else x
  }

  ghost predicate Near(x: real, y: real, tolerance: real) {
    -tolerance <= x - y <= tolerance
  }

  lemma ClipIsBounded(x: real, lo: real, hi: real)
    requires lo <= hi
    ensures Clip(x, lo, hi) == Bounded(x, lo, hi)
  {
  }

  /** Bounding brings no two numbers further apart. */
  lemma BoundedNear(x: real, y: real, lo: real, hi: real, tolerance: real)
    requires Near(x, y, tolerance) && lo <= hi && tolerance >= 0.0
    ensures Near(Bounded(x, lo, hi), Bounded(y, lo, hi), tolerance)
  {
  }

  // ---------------------------------------------------------------- report score

  /** How far the target lies above the close, in percent, between -40 and 60; zero when unknown. */
  function Upside(input: ReportInput): real {
    match (input.avgTargetPrice, input.latestClose)
    case (Some(target), Some(close)) =>
      if close > 0.0 then Bounded((target - close) / close * 100.0, -40.0, 60.0) else 0.0
    case _ => 0.0
  }

  /** Five points for a report of the last 14 days, three for one of the last 30. */
  function Freshness(ageDays: Option<int>): real {
    match ageDays
    case None => 0.0
    case Some(age) => if age <= 14 then 5.0 else if age <= 30 then 3.0 else 0.0
  }

  /** The ratings on a scale from 2 for strong buy to -2 for strong sell, averaged over the reports. */
  function MeanRating(input: ReportInput): real
    requires input.reportCount > 0
  {
    var r := input.ratings;
    (r.strongBuy + r.strongBuy + r.buy - r.sell - r.strongSell - r.strongSell) as real / (input.reportCount as real)
  }

  lemma UpsideNear(input: ReportInput)
    ensures Near(OrZero(TargetUpsidePct(input.avgTargetPrice, input.latestClose)), Upside(input), 0.00005)
  {
    if input.avgTargetPrice.Some? && input.latestClose.Some? && input.latestClose.value > 0.0 {
      var raw := (input.avgTargetPrice.value - input.latestClose.value) / input.latestClose.value * 100.0;
      ClipIsBounded(raw, -40.0, 60.0);
      RoundBasisNear(Clip(raw, -40.0, 60.0));
    }
  }

  lemma RatingNear(input: ReportInput)
    requires input.reportCount > 0
    ensures Near(OrZero(RatingScoreAvg(input.reportCount, input.ratings)), MeanRating(input), 0.00005)
  {
    RoundBasisNear(WeightedRatings(input.ratings) as real / (input.reportCount as real));
  }

  /** A report score exists exactly when there are reports, and is half the upside in percent, ten times the
      mean rating and the freshness on top of 50, between 0 and 100. */
  lemma ReportScoreExactly(input: ReportInput)
    ensures CalculateReportScore(input).Some? <==> input.reportCount > 0
    ensures input.reportCount > 0 ==> OnGrid(CalculateReportScore(input).value, 100.0)
    ensures input.reportCount > 0 ==>
              Near(CalculateReportScore(input).value,
                   Bounded(50.0 + Upside(input) / 2.0 + 10.0 * MeanRating(input) + Freshness(input.ageDays),
                           0.0, 100.0), 0.006)
  {
    if input.reportCount > 0 {
      UpsideNear(input);
      RatingNear(input);
      hide TargetUpsidePct, RatingScoreAvg, Upside, MeanRating, RoundCents, Clip, Bounded;
      var upside := OrZero(TargetUpsidePct(input.avgTargetPrice, input.latestClose));
      var rating := OrZero(RatingScoreAvg(input.reportCount, input.ratings));
      var score := 50.0 + upside * 0.5 + rating * 10.0 + OrZero(RecencyBonus(input.ageDays));
      var exact := 50.0 + Upside(input) / 2.0 + 10.0 * MeanRating(input) + Freshness(input.ageDays);
      assert Near(score, exact, 0.000525);
      RoundedOnGrid(Clip(score, 0.0, 100.0));
      hide OnGrid;
      ClipIsBounded(score, 0.0, 100.0);
      BoundedNear(score, exact, 0.0, 100.0, 0.000525);
      RoundCentsNear(Clip(score, 0.0, 100.0));
    }
  }

  // ---------------------------------------------------------------- theme signal score

  /** A strength between 0 and 1, full when not given, counted for POSITIVE and against NEGATIVE in any
      letter case. */
  function SignedStrength(direction: Option<string>, strength: Option<real>): real {
    var size := match strength case None => 1.0 case Some(v) => Bounded(v, 0.0, 1.0);
    match direction
    case None => 0.0
    case Some(d) => if Upper(d) == "POSITIVE" then size else if Upper(d) == "NEGATIVE" then -size else 0.0
  }

  function MappingStrength(): ThemeMapping -> real {
    (m: ThemeMapping) => SignedStrength(m.direction, m.strength)
  }

  function EventStrength(): SignalEvent -> real {
    (e: SignalEvent) => SignedStrength(e.direction, e.strength)
  }

  function Warns(): SignalEvent -> bool {
    (e: SignalEvent) => Upper(e.eventType) == "RISK_WARNING"
  }

  /** The mean, zero of nothing. */
  function MeanOf<T>(rows: seq<T>, f: T -> real): real {
    if |rows| == 0 then 0.0 else SumOf(rows, f) / (|rows| as real)
  }

  lemma PointsAreStrength(direction: Option<string>, strength: Option<real>)
    ensures DirectionWeight(direction) * Strength(strength) == SignedStrength(direction, strength)
  {
    if strength.Some? {
      ClipIsBounded(strength.value, 0.0, 1.0);
    }
  }

  lemma AverageNear<T>(rows: seq<T>, points: T -> real, f: T -> real)
    requires forall x: T :: points(x) == f(x)
    ensures Near(OrZero(AverageSignalPoints(rows, points)), 10.0 * MeanOf(rows, f), 0.005)
  {
    SumCongruence(rows, points, f);
    if rows != [] {
      RoundCentsNear(SumOf(rows, points) / (|rows| as real) * 10.0);
    }
  }

  /** A theme score exists exactly when there is a mapping or an event, and is ten times each mean strength
      on top of 50, less 2.5 for each risk warning but at most 10, between 0 and 100. */
  lemma ThemeScoreExactly(mappings: seq<ThemeMapping>, events: seq<SignalEvent>)
    ensures CalculateThemeSignalScore(mappings, events).Some? <==> |mappings| > 0 || |events| > 0
    ensures CalculateThemeSignalScore(mappings, events).Some? ==>
              OnGrid(CalculateThemeSignalScore(mappings, events).value, 100.0)
    ensures CalculateThemeSignalScore(mappings, events).Some? ==>
              var penalty := Bounded(2.5 * (CountOf(events, Warns()) as real), 0.0, 10.0);
              Near(CalculateThemeSignalScore(mappings, events).value,
                   Bounded(50.0 + 10.0 * MeanOf(mappings, MappingStrength())
                           + 10.0 * MeanOf(events, EventStrength()) - penalty,
                           0.0, 100.0), 0.02)
  {
    hide CalculateThemeSignalScore, AverageSignalPoints, MeanOf, RoundCents, Clip, Bounded, CountOf,
         MappingStrength, EventStrength, Warns;
    ThemeScoreIs(mappings, events);
    RoundedOnGrid(Clip(50.0 + OrZero(AverageSignalPoints(mappings, ThemePoints()))
                       + OrZero(AverageSignalPoints(events, EventPoints()))
                       - RoundCents(Clip(CountOf(events, IsRiskWarning()) as real * 2.5, 0.0, 10.0)), 0.0, 100.0));
    hide OnGrid;
    if |mappings| > 0 || |events| > 0 {
      MappingsNear(mappings);
      EventsNear(events);
      SameCount(events);
      RoundedSum(OrZero(AverageSignalPoints(mappings, ThemePoints())),
                 OrZero(AverageSignalPoints(events, EventPoints())),
                 CountOf(events, IsRiskWarning()) as real * 2.5,
                 10.0 * MeanOf(mappings, MappingStrength()), 10.0 * MeanOf(events, EventStrength()));
    }
  }

  lemma ThemeScoreIs(mappings: seq<ThemeMapping>, events: seq<SignalEvent>)
    ensures CalculateThemeSignalScore(mappings, events) ==
            if |mappings| == 0 && |events| == 0 then None
            else Some(RoundCents(Clip(50.0 + OrZero(AverageSignalPoints(mappings, ThemePoints()))
                                      + OrZero(AverageSignalPoints(events, EventPoints()))
                                      - RoundCents(Clip(CountOf(events, IsRiskWarning()) as real * 2.5, 0.0, 10.0)),
                                      0.0, 100.0)))
  {
    hide AverageSignalPoints, RoundCents, Clip, CountOf;
  }

  lemma MappingsNear(mappings: seq<ThemeMapping>)
    ensures Near(OrZero(AverageSignalPoints(mappings, ThemePoints())), 10.0 * MeanOf(mappings, MappingStrength()),
                 0.005)
  {
    hide AverageSignalPoints, MeanOf;
    forall m: ThemeMapping ensures ThemePoints()(m) == MappingStrength()(m) {
      PointsAreStrength(m.direction, m.strength);
    }
    AverageNear(mappings, ThemePoints(), MappingStrength());
  }

  lemma EventsNear(events: seq<SignalEvent>)
    ensures Near(OrZero(AverageSignalPoints(events, EventPoints())), 10.0 * MeanOf(events, EventStrength()), 0.005)
  {
    hide AverageSignalPoints, MeanOf;
    forall e: SignalEvent ensures EventPoints()(e) == EventStrength()(e) { PointsAreStrength(e.direction, e.strength); }
    AverageNear(events, EventPoints(), EventStrength());
  }

  lemma RoundedSum(themes: real, signals: real, raw: real, exactThemes: real, exactSignals: real)
    requires Near(themes, exactThemes, 0.005) && Near(signals, exactSignals, 0.005)
    ensures Near(RoundCents(Clip(50.0 + themes + signals - RoundCents(Clip(raw, 0.0, 10.0)), 0.0, 100.0)),
                 Bounded(50.0 + exactThemes + exactSignals - Bounded(raw, 0.0, 10.0), 0.0, 100.0), 0.02)
  {
    hide RoundCents, Clip, Bounded;
    ClipIsBounded(raw, 0.0, 10.0);
    RoundCentsNear(Clip(raw, 0.0, 10.0));
    var score := 50.0 + themes + signals - RoundCents(Clip(raw, 0.0, 10.0));
    ClipIsBounded(score, 0.0, 100.0);
    BoundedNear(score, 50.0 + exactThemes + exactSignals - Bounded(raw, 0.0, 10.0), 0.0, 100.0, 0.015);
    RoundCentsNear(Clip(score, 0.0, 100.0));
  }

  lemma {:induction false} SameCount(events: seq<SignalEvent>)
    ensures CountOf(events, IsRiskWarning()) == CountOf(events, Warns())
  {
    if events != [] { SameCount(events[1..]); }
  }

  // ---------------------------------------------------------------- adjustment

  /** A tenth of the score's distance from 50, between -5 and 5; nothing without a score. */
  function Tenth(score: Option<real>): real {
    match score
    case None => 0.0
    case Some(v) => Bounded((v - 50.0) / 10.0, -5.0, 5.0)
  }

  /** The adjustments are the tenths, and the total is the base moved by both, between 0 and 100; each to
      within its own rounding. */
  lemma AdjustmentExactly(base: real, report: Option<real>, theme: Option<real>)
    ensures var a := CalculateScoreAdjustment(base, report, theme);
            && OnGrid(a.report, 100.0) && OnGrid(a.theme, 100.0) && OnGrid(a.total, 10000.0)
            && Near(a.report, Tenth(report), 0.005) && Near(a.theme, Tenth(theme), 0.005)
            && Near(a.total, Bounded(base + Tenth(report) + Tenth(theme), 0.0, 100.0), 0.00005)
  {
    TenthIsAdjustment(report);
    TenthIsAdjustment(theme);
    RoundCentsNear(Adjustment(report));
    RoundCentsNear(Adjustment(theme));
    ClipIsBounded(base + Adjustment(report) + Adjustment(theme), 0.0, 100.0);
    RoundBasisNear(AdjustedTotal(base, report, theme));
    RoundedOnGrid(Adjustment(report));
    RoundedOnGrid(Adjustment(theme));
    RoundedOnGrid(AdjustedTotal(base, report, theme));
  }

  lemma TenthIsAdjustment(score: Option<real>)
    ensures Adjustment(score) == Tenth(score)
  {
    if score.Some? {
      ClipIsBounded((score.value - 50.0) * 0.1, -5.0, 5.0);
    }
  }
}
