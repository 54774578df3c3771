/** The rule part of the single-expense anomaly verdict: the model's score is
    turned into a risk, the category's statistics into deviation points with
    their reasons, and the two are weighed into the verdict. */
module AnomalyPredictor {
  import opened Values
  import opened Text
  import opened Rounding

  /** The spending statistics of one category: 95th and 90th percentile and
      median amount. */
  datatype CategoryStats = CategoryStats(p95: real, p90: real, median: real)

  datatype Verdict = Verdict(suspicious: bool, riskScore: real, mlScore: real, reason: string)

  const UnknownCategory := "unknown category"
  const TopFivePercent := "amount is in top 5% for this category"
  const UnusuallyHigh := "amount is unusually high for this category"
  const RarePattern := "rare spending pattern compared to past behavior"
  const NormalBehavior := "within normal behavior"

  /** The KeyError of `category_stats[category]` for a known category without
      statistics. */
  function KeyError(category: string): string
  {
    "KeyError: '" + category + "'"
  }

  /** The error `pd.to_datetime` raises for a transaction date it cannot
      parse. */
  function DateParseError(date: string): string
  {
    "Unknown datetime string format, unable to parse: " + date
  }

  /** `max(0.0, 1 - (ml_score + 0.5))`: the lower the model's score, the
      higher the risk. */
  function MlRisk(mlScore: real): (risk: real)
    ensures risk >= 0.0 && risk >= 0.5 - mlScore
    ensures risk == 0.0 || risk == 0.5 - mlScore
  {
    if 1.0 - (mlScore + 0.5) > 0.0 then 1.0 - (mlScore + 0.5) else 0.0
  }

  /** `max(stats["median"], 1.0)`: never below 1, so the ratio is defined. */
  function Denominator(s: CategoryStats): (d: real)
    ensures d >= 1.0 && d >= s.median
    ensures d == 1.0 || d == s.median
  {
    if s.median > 1.0 then s.median else 1.0
  }

  function Ratio(amount: real, s: CategoryStats): real
  {
    amount / Denominator(s)
  }

  /** The percentile points: 0.6 above the 95th percentile, else 0.4 above
      the 90th, else none. */
  function PercentilePoints(amount: real, s: CategoryStats): (p: real)
    ensures p == 0.6 <==> amount > s.p95
    ensures p == 0.4 <==> !(amount > s.p95) && amount > s.p90
    ensures p == 0.0 <==> !(amount > s.p95) && !(amount > s.p90)
  {
    if amount > s.p95 then 0.6 else if amount > s.p90 then 0.4 else 0.0
  }

  /** The ratio points: 0.6 above three times the median, else 0.4 above
      twice, else none. */
  function RatioPoints(ratio: real): (p: real)
    ensures p == 0.6 <==> ratio > 3.0
    ensures p == 0.4 <==> !(ratio > 3.0) && ratio > 2.0
    ensures p == 0.0 <==> ratio <= 2.0
  {
    if ratio > 3.0 then 0.6 else if ratio > 2.0 then 0.4 else 0.0
  }

  /** The deviation risk after the cap. */
  function Deviation(amount: real, s: CategoryStats): (d: real)
    ensures 0.0 <= d <= 1.0
    ensures d == 0.0 <==> PercentilePoints(amount, s) == 0.0 && RatioPoints(Ratio(amount, s)) == 0.0
  {
    var total := PercentilePoints(amount, s) + RatioPoints(Ratio(amount, s));
    if total < 1.0 then total else 1.0
  }

  /** `0.4 * ml_risk + 0.6 * deviation_risk`. */
  function FinalScore(mlScore: real, amount: real, s: CategoryStats): (f: real)
    ensures f >= 0.0
  {
    0.4 * MlRisk(mlScore) + 0.6 * Deviation(amount, s)
  }

  function RatioReason(ratio: real): string
  {
    "spend is " + OneDecimal(ratio) + "\U{00D7} higher than usual"
  }

  /** The reasons the two deviation checks collect, in order. */
  function CollectedReasons(amount: real, s: CategoryStats): (reasons: seq<string>)
    ensures |reasons| <= 2
    ensures reasons == [] <==> Deviation(amount, s) == 0.0
  {
    (if amount > s.p95 then [TopFivePercent] else if amount > s.p90 then [UnusuallyHigh] else [])
    + (if Ratio(amount, s) > 2.0 then [RatioReason(Ratio(amount, s))] else [])
  }

  /** The reasons the verdict reports: the collected ones, or the rare-pattern
      reason for a suspicious verdict that collected none. */
  function FinalReasons(mlScore: real, amount: real, s: CategoryStats): (reasons: seq<string>)
    ensures FinalScore(mlScore, amount, s) >= 0.5 ==> reasons != []
    ensures CollectedReasons(amount, s) != [] ==> reasons == CollectedReasons(amount, s)
  {
    var collected := CollectedReasons(amount, s);
    if FinalScore(mlScore, amount, s) >= 0.5 && collected == [] then [RarePattern] else collected
  }

  /** Without deviation points a verdict is suspicious only on the model's
      score alone: at most -0.75. */
  lemma {:induction false} SuspiciousWithoutReasons(mlScore: real, amount: real, s: CategoryStats)
    requires CollectedReasons(amount, s) == []
    ensures FinalScore(mlScore, amount, s) >= 0.5 <==> mlScore <= -0.75
  {
  }

  /** `detect_anomaly(expense)` with `ml_score` the model's decision value,
      `known` the categories the model was trained on, `stats` the
      per-category statistics and `dateParses` whether `pd.to_datetime`
      accepts the request's `transaction_date`, which the request schema
      types only as a string. */
  method DetectAnomaly(category: string, amount: real, date: string, dateParses: bool,
                       mlScore: real, known: set<string>, stats: map<string, CategoryStats>)
    returns (r: Result<Verdict>)
    ensures category !in known ==> r == Ok(Verdict(false, 0.0, 0.0, UnknownCategory))
    ensures category in known && !dateParses ==> r == Err(DateParseError(date))
    ensures category in known && dateParses && category !in stats ==> r == Err(KeyError(category))
    ensures category in known && dateParses && category in stats ==>
              var s := stats[category];
              var reasons := FinalReasons(mlScore, amount, s);
              && r.Ok?
              && (r.value.suspicious <==> 0.4 * MlRisk(mlScore) + 0.6 * Deviation(amount, s) >= 0.5)
              && r.value.riskScore == RoundTo(FinalScore(mlScore, amount, s), 3)
              && r.value.mlScore == RoundTo(mlScore, 4)
              && r.value.reason == (if reasons == [] then NormalBehavior else Join(reasons, " & "))
              && (r.value.suspicious ==> reasons != [])
  {
    if category !in known {
      return Ok(Verdict(false, 0.0, 0.0, UnknownCategory));
    }
    if !dateParses {
      return Err(DateParseError(date));
    }
    var mlRisk := if 0.0 > 1.0 - (mlScore + 0.5) then 0.0 else 1.0 - (mlScore + 0.5);
    if category !in stats {
      return Err(KeyError(category));
    }
    var s := stats[category];
    var deviationRisk, reasons := DeviationRisk(amount, s);

    var finalScore := 0.4 * mlRisk + 0.6 * deviationRisk;
    assert finalScore == FinalScore(mlScore, amount, s);
    var suspicious := finalScore >= 0.5;

    if suspicious && reasons == [] {
      reasons := reasons + [RarePattern];
    }
    assert reasons == FinalReasons(mlScore, amount, s);

    r := Ok(Verdict(suspicious, RoundTo(finalScore, 3), RoundTo(mlScore, 4),
                    if reasons != [] then Join(reasons, " & ") else NormalBehavior));
  }

  /** The rule-based half of `detect_anomaly`: percentile and median-ratio
      points, capped at 1, and the reasons they add. */
  method DeviationRisk(amount: real, s: CategoryStats) returns (deviationRisk: real, reasons: seq<string>)
    ensures deviationRisk == Deviation(amount, s)
    ensures reasons == CollectedReasons(amount, s)
  {
    deviationRisk := 0.0;
    reasons := [];

    if amount > s.p95 {
      deviationRisk := deviationRisk + 0.6;
      reasons := reasons + [TopFivePercent];
    } else if amount > s.p90 {
      deviationRisk := deviationRisk + 0.4;
      reasons := reasons + [UnusuallyHigh];
    }

    var ratio := amount / (if s.median > 1.0 then s.median else 1.0);

    if ratio > 3.0 {
      deviationRisk := deviationRisk + 0.6;
      reasons := reasons + [RatioReason(ratio)];
    } else if ratio > 2.0 {
      deviationRisk := deviationRisk + 0.4;
      reasons := reasons + [RatioReason(ratio)];
    }
    assert reasons == CollectedReasons(amount, s);

    assert deviationRisk == PercentilePoints(amount, s) + RatioPoints(Ratio(amount, s));
    deviationRisk := if deviationRisk < 1.0 then deviationRisk else 1.0;
  }
}
