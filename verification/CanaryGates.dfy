/** Gate rules of a canary deployment: one rule against a metric, and all rules together. */
module CanaryGates {
  import opened Wrappers

  datatype Metric =
    | SuccessRate | PolicyViolationCount | InvalidOutputCount | AvgLatencyMs | P99LatencyMs
    | TotalCostUsd | ErrorRate | RetryCount | TotalExecutions

  /** The metrics that have a value; a missing one is null, undefined or not a number. */
  type Metrics = map<Metric, real>

  datatype Operator = Lt | Lte | Gt | Gte | Eq | Neq | OtherOperator

  datatype Rule = Rule(metric: Metric, operator: Operator, threshold: real, weight: real, isHardGate: bool)

  datatype GateResult = PASS | WARN | FAIL | PENDING

  const DEFAULT_RULES: seq<Rule> := [
    Rule(SuccessRate, Gte, 0.95, 0.3, true),
    Rule(ErrorRate, Lte, 0.05, 0.25, true),
    Rule(PolicyViolationCount, Eq, 0.0, 0.2, true),
    Rule(AvgLatencyMs, Lte, 5000.0, 0.1, false),
    Rule(InvalidOutputCount, Eq, 0.0, 0.15, false)]

  predicate Holds(rule: Rule, actual: real) {
    match rule.operator
    case Lt => actual < rule.threshold
    case Lte => actual <= rule.threshold
    case Gt => actual > rule.threshold
    case Gte => actual >= rule.threshold
    case Eq => actual == rule.threshold
    case Neq => actual != rule.threshold
    case OtherOperator => false
  }

  predicate Passes(rule: Rule, metrics: Metrics) {
    rule.metric in metrics && Holds(rule, metrics[rule.metric])
  }

  predicate Fails(rules: seq<Rule>, metrics: Metrics, hard: bool) {
    exists r :: r in rules && r.isHardGate == hard && !Passes(r, metrics)
  }

  /** Without metrics, or without rules, nothing passes. */
  function Evaluate(rules: seq<Rule>, metrics: Option<Metrics>): GateResult {
    if metrics.None? || rules == [] then FAIL
    else if Fails(rules, metrics.value, true) then FAIL
    else if Fails(rules, metrics.value, false) then WARN
    else PASS
  }

  /** The rule holds of the metric's value, by where that lies from the threshold; without a value it does not. */
  ghost predicate Met(rule: Rule, metrics: Metrics) {
    && rule.metric in metrics
    && var distance := metrics[rule.metric] - rule.threshold;
       match rule.operator
       case Lt => distance < 0.0
       case Lte => !(distance > 0.0)
       case Gt => distance > 0.0
       case Gte => !(distance < 0.0)
       case Eq => distance == 0.0
       case Neq => distance != 0.0
       case OtherOperator => false
  }

  lemma PassesMeans(rule: Rule, metrics: Metrics)
    ensures Passes(rule, metrics) <==> Met(rule, metrics)
  {
  }

  /** With metrics and rules, a gate passes if all rules are met, fails if a hard one is not, and warns otherwise. */
  lemma EvaluateMeans(rules: seq<Rule>, metrics: Metrics)
    ensures Evaluate(rules, None) == FAIL && Evaluate([], Some(metrics)) == FAIL
    ensures rules != [] ==>
              var r := Evaluate(rules, Some(metrics));
              && (r == PASS <==> forall rule :: rule in rules ==> Met(rule, metrics))
              && (r == FAIL <==> exists rule :: rule in rules && rule.isHardGate && !Met(rule, metrics))
              && r != PENDING
  {
    forall rule | rule in rules
      ensures Passes(rule, metrics) <==> Met(rule, metrics)
    {
      PassesMeans(rule, metrics);
    }
  }

  /** The metric has a value between the bounds. */
  ghost predicate Lies(metrics: Metrics, m: Metric, low: Option<real>, high: Option<real>) {
    m in metrics && (low.Some? ==> low.value <= metrics[m]) && (high.Some? ==> metrics[m] <= high.value)
  }

  /** By default a canary fails on a success rate below 95 per cent, an error rate above 5, or any policy violation; it
      passes if also the average latency is at most five seconds and no output was invalid. */
  lemma DefaultGate(metrics: Metrics)
    ensures var r := Evaluate(DEFAULT_RULES, Some(metrics));
            var hard := Lies(metrics, SuccessRate, Some(0.95), None) && Lies(metrics, ErrorRate, None, Some(0.05))
                        && Lies(metrics, PolicyViolationCount, Some(0.0), Some(0.0));
            var soft := Lies(metrics, AvgLatencyMs, None, Some(5000.0))
                        && Lies(metrics, InvalidOutputCount, Some(0.0), Some(0.0));
            r == if !hard then FAIL else if !soft then WARN else PASS
  {
    var d := DEFAULT_RULES;
    assert d[0] in d && d[1] in d && d[2] in d && d[3] in d && d[4] in d;
    forall i | 0 <= i < 5
      ensures Passes(d[i], metrics) <==> Met(d[i], metrics)
    {
    }
    assert Fails(d, metrics, true) <==> !Passes(d[0], metrics) || !Passes(d[1], metrics) || !Passes(d[2], metrics);
    assert Fails(d, metrics, false) <==> !Passes(d[3], metrics) || !Passes(d[4], metrics);
  }

  /** How far a result is from passing. */
  function Severity(r: GateResult): nat {
    match r
    case PASS => 0
    case WARN => 1
    case _ => 2
  }

  /** The result of two sets of rules together is the worse of their results; order and repetition do not matter. */
  lemma RulesCombine(a: seq<Rule>, b: seq<Rule>, metrics: Metrics)
    requires a != [] && b != []
    ensures var ra, rb := Severity(Evaluate(a, Some(metrics))), Severity(Evaluate(b, Some(metrics)));
            Severity(Evaluate(a + b, Some(metrics))) == if ra >= rb then ra else rb
  {
    assert forall r :: r in a + b <==> r in a || r in b;
    assert Fails(a + b, metrics, true) <==> Fails(a, metrics, true) || Fails(b, metrics, true);
    assert Fails(a + b, metrics, false) <==> Fails(a, metrics, false) || Fails(b, metrics, false);
  }
}
