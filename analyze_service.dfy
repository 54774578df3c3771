/** `analyzeData`: the finance metrics of every stored expense against a fixed
    income, the category breakdown, the flagged expenses, a rule-based score
    with its risk band, and the recommendations. */
module AnalyzeService {
  import opened Values
  import opened Groups
  import opened Rounding
  import opened Tables
  import opened FinanceRules
  import opened MlClient

  const NoExpenses := "No expenses found"
  /** The fixed income the analysis assumes. */
  const Income: real := 85000.0
  const SavingsAdvice := "Increase monthly savings by reducing discretionary spending"
  const ReviewAdvice := "Review high-value transactions flagged as unusual"

  datatype Score = Score(value: int, risk: string, reasons: seq<string>)

  datatype Analysis = Analysis(
    financeMetrics: FinanceMetrics,
    categoryBreakdown: seq<Entry<string>>,
    anomalies: seq<Flagged>,
    forecast: Forecast,
    score: Score,
    recommendations: seq<string>)

  /** The unrounded score: 100, less 0.4 per point of expense ratio and 5 per
      flagged expense. */
  function RawScore(expenseRatio: real, anomalyCount: nat): real
  {
    100.0 - expenseRatio * 0.4 - (anomalyCount * 5) as real
  }

  /** The score: the raw score rounded to the nearest integer (halves up),
      and 0 when that is not positive. */
  function ScoreOf(expenseRatio: real, anomalyCount: nat): (n: int)
    ensures n >= 0
    ensures n == 0 <==> RawScore(expenseRatio, anomalyCount) < 0.5
    ensures RawScore(expenseRatio, anomalyCount) >= 0.5 ==>
              RawScore(expenseRatio, anomalyCount) - 0.5 < n as real <= RawScore(expenseRatio, anomalyCount) + 0.5
  {
    var rounded := JsRound(RawScore(expenseRatio, anomalyCount));
    if rounded > 0 then rounded else 0
  }

  /** For fixed metrics, more flagged expenses never raise the score. */
  lemma {:induction false} ScoreAntitoneInAnomalies(expenseRatio: real, fewer: nat, more: nat)
    requires fewer <= more
    ensures ScoreOf(expenseRatio, more) <= ScoreOf(expenseRatio, fewer)
  {
    JsRoundMonotone(RawScore(expenseRatio, more), RawScore(expenseRatio, fewer));
  }

  /** A higher expense ratio never raises the score either. */
  lemma {:induction false} ScoreAntitoneInRatio(lower: real, higher: real, anomalyCount: nat)
    requires lower <= higher
    ensures ScoreOf(higher, anomalyCount) <= ScoreOf(lower, anomalyCount)
  {
    JsRoundMonotone(RawScore(higher, anomalyCount), RawScore(lower, anomalyCount));
  }

  /** Spending never earns more than the full score. */
  lemma {:induction false} ScoreAtMostHundred(expenseRatio: real, anomalyCount: nat)
    requires expenseRatio >= 0.0
    ensures ScoreOf(expenseRatio, anomalyCount) <= 100
  {
    ScoreAntitoneInRatio(0.0, expenseRatio, anomalyCount);
    ScoreAntitoneInAnomalies(0.0, 0, anomalyCount);
    assert JsRound(100.0) == 100;
  }

  /** The risk band of a score. */
  function RiskBand(score: int): (risk: string)
    ensures risk == "LOW" <==> score >= 70
    ensures risk == "MODERATE" <==> 40 <= score < 70
    ensures risk == "HIGH" <==> score < 40
  {
    if score >= 70 then "LOW" else if score >= 40 then "MODERATE" else "HIGH"
  }

  /** The recommendations: the savings advice when the savings rate is below
      20, then the review advice when some expense is flagged. */
  function Recommendations(savingsRate: real, anomalyCount: nat): (r: seq<string>)
    ensures SavingsAdvice in r <==> savingsRate < 20.0
    ensures ReviewAdvice in r <==> anomalyCount > 0
    ensures forall i | 0 <= i < |r| :: r[i] == SavingsAdvice || r[i] == ReviewAdvice
    ensures |r| == (if savingsRate < 20.0 then 1 else 0) + (if anomalyCount > 0 then 1 else 0)
    ensures |r| == 2 ==> r[0] == SavingsAdvice && r[1] == ReviewAdvice
  {
    (if savingsRate < 20.0 then [SavingsAdvice] else [])
    + (if anomalyCount > 0 then [ReviewAdvice] else [])
  }

  /** `analyzeData()` over the stored expenses. */
  method AnalyzeData(expenses: seq<Expense>) returns (r: Result<Analysis>)
    ensures r.Err? <==> expenses == []
    ensures r.Err? ==> r.msg == NoExpenses
    ensures r.Ok? ==>
              var rows := RowsOf(expenses);
              var a := r.value;
              && a.financeMetrics == ComputeFinanceMetrics(Income, rows)
              && a.categoryBreakdown == Grouped(CategoryEntries(rows))
              && a.anomalies == DetectAnomalies(rows)
              && a.forecast == ForecastSavings()
              && a.score.value == ScoreOf(a.financeMetrics.expenseRatio, |a.anomalies|)
              && a.score.risk == RiskBand(a.score.value)
              && a.recommendations == Recommendations(a.financeMetrics.savingsRate, |a.anomalies|)
              && a.score.reasons == a.recommendations
  {
    if |expenses| == 0 {
      return Err(NoExpenses);
    }
    var rows := RowsOf(expenses);
    var financeMetrics := ComputeFinanceMetrics(Income, rows);
    var categoryBreakdown := ComputeCategoryBreakdown(rows);
    var anomalies := DetectAnomalies(rows);
    var forecast := ForecastSavings();

    var value, risk := RuleScore(financeMetrics.expenseRatio, |anomalies|);
    var recommendations := Advise(financeMetrics.savingsRate, |anomalies|);

    r := Ok(Analysis(financeMetrics, categoryBreakdown, anomalies, forecast,
                     Score(value, risk, recommendations), recommendations));
  }

  /** Step 4 of `analyzeData`: the rule-based score and its risk band. */
  method RuleScore(expenseRatio: real, anomalyCount: nat) returns (value: int, risk: string)
    ensures value == ScoreOf(expenseRatio, anomalyCount)
    ensures risk == RiskBand(value)
  {
    var scoreValue: real := 100.0;
    scoreValue := scoreValue - expenseRatio * 0.4;
    scoreValue := scoreValue - (anomalyCount * 5) as real;
    var rounded := JsRound(scoreValue);
    value := if 0 > rounded then 0 else rounded;

    risk := if value >= 70 then "LOW" else if value >= 40 then "MODERATE" else "HIGH";
  }

  /** Step 5 of `analyzeData`: the advice pushed for a low savings rate and for
      flagged expenses, in that order. */
  method Advise(savingsRate: real, anomalyCount: nat) returns (recommendations: seq<string>)
    ensures recommendations == Recommendations(savingsRate, anomalyCount)
  {
    recommendations := [];
    if savingsRate < 20.0 {
      recommendations := recommendations + [SavingsAdvice];
    }
    assert recommendations == if savingsRate < 20.0 then [SavingsAdvice] else [];
    if anomalyCount > 0 {
      recommendations := recommendations + [ReviewAdvice];
    }
  }
}
