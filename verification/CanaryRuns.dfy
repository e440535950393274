/**
 Whole runs of a canary: evaluations of queued jobs, and manual decisions. Nothing comes between
 the accesses of one of them, but any access may throw.
 */
module CanaryRuns {
  import opened Wrappers
  import opened CanaryGates
  import opened CanaryEvaluator

  /** The queued job is evaluated at some time, with so many writes before an access throws, or someone promotes or
      rolls back by hand, with or without the record of it. */
  datatype Event =
    | Work(metrics: Metrics, executions: nat, at: int, writes: nat)
    | ManualPromote(recorded: bool)
    | ManualRollback(recorded: bool)

  /** A deployment just started, with its first job queued and its rules in a gate of window 0. */
  function Started(rules: seq<Rule>, start: int, max: int, step: int, autoRollback: bool): System {
    System(Deployment(ACTIVE, start, max, step, autoRollback, 1),
           Queue([Job(ForWindow(1), 1)], {ForWindow(1)}),
           [Gate(0, rules, PENDING)], [])
  }

  /** Someone can still decide by hand. */
  predicate Undecided(s: System) {
    s.deployment.status == ACTIVE || s.deployment.status == PAUSED
  }

  /** The queue hands out its first job; with none waiting there is nothing to evaluate. */
  function Step(s: System, e: Event): System {
    match e
    case Work(metrics, executions, at, writes) =>
      if s.queue.waiting == [] then s
      else
        Evaluated(s.(queue := s.queue.(waiting := s.queue.waiting[1..])), s.queue.waiting[0], metrics, executions, at,
                  writes)
    case ManualPromote(recorded) =>
      if Undecided(s) then
        s.(deployment := s.deployment.(status := PROMOTED, currentTrafficPct := 100),
           promotions := s.promotions + if recorded then [PROMOTE] else [])
      else s
    case ManualRollback(recorded) =>
      if Undecided(s) then
        s.(deployment := s.deployment.(status := ROLLED_BACK, currentTrafficPct := 0),
           promotions := s.promotions + if recorded then [ROLLBACK] else [])
      else s
  }

  /** Some write of the event is lost. */
  predicate CutShort(s: System, e: Event) {
    match e
    case Work(metrics, executions, _, writes) => s.queue.waiting != [] && writes < WritesOf(s, metrics, executions)
    case ManualPromote(recorded) => Undecided(s) && !recorded
    case ManualRollback(recorded) => Undecided(s) && !recorded
  }

  function Run(s: System, events: seq<Event>): System {
    if events == [] then s else Step(Run(s, events[..|events| - 1]), events[|events| - 1])
  }

  /** Evaluations happen at different, increasing times. */
  ghost predicate Clocked(events: seq<Event>) {
    forall i, j :: 0 <= i < j < |events| && events[i].Work? && events[j].Work? ==> events[i].at < events[j].at
  }

  function CountResults(gates: seq<Gate>, r: GateResult): nat {
    if gates == [] then 0
    else CountResults(gates[..|gates| - 1], r) + if gates[|gates| - 1].result == r then 1 else 0
  }

  lemma CountSnoc(gates: seq<Gate>, g: Gate, r: GateResult)
    ensures CountResults(gates + [g], r) == CountResults(gates, r) + if g.result == r then 1 else 0
  {
    assert (gates + [g])[..|gates|] == gates;
  }

  /** Some event so far was cut short. */
  predicate Broken(s: System, events: seq<Event>) {
    events != [] &&
    var before, e := events[..|events| - 1], events[|events| - 1];
    Broken(s, before) || CutShort(Run(s, before), e)
  }

  /** The promotions written match the outcome; there is at most one, and none is missing unless something broke. */
  ghost predicate OutcomeRecorded(s: System, broken: bool) {
    match s.deployment.status
    case PROMOTED => s.deployment.currentTrafficPct == 100
      && (s.promotions == [PROMOTE] || (broken && s.promotions == []))
    case ROLLED_BACK => s.deployment.currentTrafficPct == 0
      && (s.promotions == [ROLLBACK] || (broken && s.promotions == []))
    case _ => s.promotions == []
  }

  /** The last gate warned. */
  predicate Warned(s: System) {
    s.gates != [] && s.gates[|s.gates| - 1].result == WARN
  }

  /** At most one job waits; while the deployment is active, none waits exactly after a warning or a break. */
  ghost predicate QueueSound(s: System, clock: Option<int>, broken: bool) {
    && |s.queue.waiting| <= 1
    && s.gates != []
    && (s.deployment.status == ACTIVE ==> (s.queue.waiting == [] <==> Warned(s) || broken))
    && (s.queue.waiting != [] ==> s.queue.waiting[0].window == s.deployment.currentWindow)
    && (forall id :: id in s.queue.seen ==>
          match id
          case ForWindow(n) => n <= s.deployment.currentWindow
          case Retry(_, at) => clock.Some? && at <= clock.value)
  }

  /** The traffic after so many steps. */
  function Climb(start: int, step: int, passes: nat): int {
    if passes == 0 then start else Climb(start, step, passes - 1) + step
  }

  lemma {:induction false} ClimbIs(start: int, step: int, passes: nat)
    ensures Climb(start, step, passes) == start + passes * step
  {
    if passes > 0 {
      ClimbIs(start, step, passes - 1);
      assert passes * step == (passes - 1) * step + step;
    }
  }

  /** No step so far has reached the maximum. */
  ghost predicate Below(start: int, max: int, step: int, passes: nat) {
    forall k: nat :: 1 <= k <= passes ==> Climb(start, step, k) < max
  }

  /** The windows gone through: one for each step of the traffic. */
  function Steps(s: System): nat {
    if s.deployment.currentWindow == 0 then 0 else s.deployment.currentWindow - 1
  }

  /** The last gate passed, and its step was never made. */
  predicate PassPending(s: System) {
    && s.gates != []
    && var g := s.gates[|s.gates| - 1]; g.result == PASS && g.window == s.deployment.currentWindow
  }

  ghost predicate Climbing(s: System, start: int, max: int, step: int, passes: nat) {
    && s.deployment.currentTrafficPct == Climb(start, step, passes)
    && Below(start, max, step, passes)
  }

  /** While active, traffic is the start plus one step per passed gate, save one pending, and no step has reached the
      maximum; a job that waits is for the current window, and then no pass is pending. */
  ghost predicate TrafficByPasses(s: System, start: int, max: int, step: int) {
    && s.deployment.maxTrafficPct == max && s.deployment.incrementStepPct == step && s.deployment.currentWindow >= 1
    && |s.queue.waiting| <= 1
    && (s.queue.waiting != [] ==> s.queue.waiting[0].window == s.deployment.currentWindow
                                  && (s.deployment.status == ACTIVE ==> !PassPending(s)))
    && (s.deployment.status == ACTIVE ==>
          && Climbing(s, start, max, step, Steps(s))
          && CountResults(s.gates, PASS) == Steps(s) + if PassPending(s) then 1 else 0)
  }

  ghost predicate SameRules(s: System, rules: seq<Rule>) {
    s.gates != [] && forall g :: g in s.gates ==> g.rules == rules
  }

  lemma OutcomeStep(s: System, e: Event, broken: bool)
    requires OutcomeRecorded(s, broken)
    ensures OutcomeRecorded(Step(s, e), broken || CutShort(s, e))
  {
  }

  lemma QueueStep(s: System, e: Event, clock: Option<int>, broken: bool)
    requires QueueSound(s, clock, broken)
    requires e.Work? && clock.Some? ==> clock.value < e.at
    ensures QueueSound(Step(s, e), if e.Work? then Some(e.at) else clock, broken || CutShort(s, e))
  {
  }

  predicate Moves(d: Deployment, next: Deployment, made: bool) {
    if made then
      && next.currentTrafficPct == d.currentTrafficPct + d.incrementStepPct && next.currentTrafficPct < d.maxTrafficPct
      && next.currentWindow == d.currentWindow + 1
    else next.currentTrafficPct == d.currentTrafficPct && next.currentWindow == d.currentWindow
  }

  lemma SettingsStay(s: System, e: Event)
    ensures var d, t := s.deployment, Step(s, e).deployment;
            t.maxTrafficPct == d.maxTrafficPct && t.incrementStepPct == d.incrementStepPct
            && (t.status == ACTIVE ==> d.status == ACTIVE)
  {
  }

  /** An evaluation writes one gate, or breaks before it. */
  lemma GateAppended(s: System, e: Event)
    ensures var t := Step(s, e);
            t.gates == s.gates || (|t.gates| == |s.gates| + 1 && t.gates == s.gates + [t.gates[|s.gates|]])
  {
  }

  /** If it leaves the deployment active, it moves the traffic by one step on a pass, unless it breaks before. */
  lemma EvaluationMoves(s: System, e: Event)
    requires s.queue.waiting != [] && e.Work? && s.queue.waiting[0].window == s.deployment.currentWindow
    requires s.deployment.status == ACTIVE && Step(s, e).deployment.status == ACTIVE
    ensures var t := Step(s, e);
            && (t.gates == s.gates ==> t.deployment == s.deployment)
            && (t.gates != s.gates ==>
                  && |t.gates| == |s.gates| + 1 && t.gates[|s.gates|].window == s.deployment.currentWindow
                  && Moves(s.deployment, t.deployment, t.gates[|s.gates|].result == PASS && e.writes > 1))
  {
  }

  /** What is left waiting. */
  lemma QueueMoves(s: System, e: Event)
    requires |s.queue.waiting| <= 1
    requires s.queue.waiting != [] ==> s.queue.waiting[0].window == s.deployment.currentWindow
    ensures var t := Step(s, e);
            && |t.queue.waiting| <= 1
            && (t.queue.waiting != [] ==> t.queue.waiting[0].window == t.deployment.currentWindow)
            && (t.queue.waiting != [] && t != s && t.deployment.status == ACTIVE ==> !PassPending(t))
            && t.deployment.currentWindow >= s.deployment.currentWindow
  {
  }

  lemma TrafficStep(s: System, e: Event, start: int, max: int, step: int)
    requires TrafficByPasses(s, start, max, step)
    ensures TrafficByPasses(Step(s, e), start, max, step)
  {
    var t := Step(s, e);
    SettingsStay(s, e);
    QueueMoves(s, e);
    if t.deployment.status == ACTIVE && t != s {
      GateAppended(s, e);
      EvaluationMoves(s, e);
      if t.gates != s.gates {
        CountSnoc(s.gates, t.gates[|s.gates|], PASS);
      }
    }
  }

  lemma RulesStep(s: System, e: Event, rules: seq<Rule>)
    requires SameRules(s, rules)
    ensures SameRules(Step(s, e), rules)
  {
  }

  function ClockOf(events: seq<Event>): Option<int> {
    if events == [] then None
    else if events[|events| - 1].Work? then Some(events[|events| - 1].at)
    else ClockOf(events[..|events| - 1])
  }

  lemma {:induction false} ClockIsPast(events: seq<Event>)
    ensures ClockOf(events).Some? ==>
            exists i :: 0 <= i < |events| && events[i].Work? && events[i].at == ClockOf(events).value
  {
    if events != [] && !events[|events| - 1].Work? {
      ClockIsPast(events[..|events| - 1]);
    }
  }

  /** Whenever evaluations happen, the traffic counts the passed gates. */
  lemma {:induction false} TrafficCountsPasses(rules: seq<Rule>, start: int, max: int, step: int, autoRollback: bool,
                                              events: seq<Event>)
    ensures TrafficByPasses(Run(Started(rules, start, max, step, autoRollback), events), start, max, step)
  {
    var s0 := Started(rules, start, max, step, autoRollback);
    if events == [] {
      CountSnoc([], s0.gates[0], PASS);
      assert [] + [s0.gates[0]] == s0.gates;
    } else {
      var before, e := events[..|events| - 1], events[|events| - 1];
      TrafficCountsPasses(rules, start, max, step, autoRollback, before);
      TrafficStep(Run(s0, before), e, start, max, step);
    }
  }

  /** Every run keeps the outcome recorded, the queue sound and the rules unchanged. */
  lemma {:induction false} RunSound(rules: seq<Rule>, start: int, max: int, step: int, autoRollback: bool,
                                   events: seq<Event>)
    requires Clocked(events)
    ensures var s0 := Started(rules, start, max, step, autoRollback);
            var s, broken := Run(s0, events), Broken(s0, events);
            OutcomeRecorded(s, broken) && QueueSound(s, ClockOf(events), broken) && SameRules(s, rules)
  {
    var s0 := Started(rules, start, max, step, autoRollback);
    if events != [] {
      var before, e := events[..|events| - 1], events[|events| - 1];
      RunSound(rules, start, max, step, autoRollback, before);
      ClockIsPast(before);
      OutcomeStep(Run(s0, before), e, Broken(s0, before));
      QueueStep(Run(s0, before), e, ClockOf(before), Broken(s0, before));
      RulesStep(Run(s0, before), e, rules);
    }
  }

  lemma {:induction false} RunAppend(s: System, before: seq<Event>, more: seq<Event>)
    ensures Run(s, before + more) == Run(Run(s, before), more)
  {
    if more == [] {
      assert before + more == before;
    } else {
      var rest := more[..|more| - 1];
      RunAppend(s, before, rest);
      assert (before + more)[..|before + more| - 1] == before + rest;
    }
  }

  /** Nobody decides by hand. */
  ghost predicate Unattended(events: seq<Event>) {
    forall e :: e in events ==> e.Work?
  }

  /** The deployment was promoted or rolled back. */
  predicate Decided(s: System) {
    s.deployment.status == PROMOTED || s.deployment.status == ROLLED_BACK
  }

  lemma MissingStep(s: System, e: Event, broken: bool)
    requires e.Work? && (s.promotions != [] ==> Decided(s))
    requires broken && s.deployment.status == ACTIVE ==> s.queue.waiting == []
    requires Decided(s) ==> (s.promotions == [] <==> broken)
    ensures Decided(Step(s, e)) ==> (Step(s, e).promotions == [] <==> broken || CutShort(s, e))
  {
  }

  /** An unattended decision lacks its record exactly if the evaluation that took it was cut short. */
  lemma {:induction false} RecordMissingIff(rules: seq<Rule>, start: int, max: int, step: int, autoRollback: bool,
                                           events: seq<Event>)
    requires Clocked(events) && Unattended(events)
    ensures var s0 := Started(rules, start, max, step, autoRollback);
            Decided(Run(s0, events)) ==> (Run(s0, events).promotions == [] <==> Broken(s0, events))
  {
    var s0 := Started(rules, start, max, step, autoRollback);
    if events != [] {
      var before, e := events[..|events| - 1], events[|events| - 1];
      RecordMissingIff(rules, start, max, step, autoRollback, before);
      RunSound(rules, start, max, step, autoRollback, before);
      MissingStep(Run(s0, before), e, Broken(s0, before));
    }
  }

  /** What an evaluation that goes through does, by the result of its gate. */
  lemma EvaluationMeans(s: System, e: Event)
    requires s.deployment.status == ACTIVE && s.queue.waiting != [] && e.Work? && e.writes >= 3
    requires e.executions >= 5
    ensures var t, d, rules := Step(s, e), s.deployment, Rules(s.gates);
            var result, next := Evaluate(rules, Some(e.metrics)), d.currentTrafficPct + d.incrementStepPct;
            && t.gates == s.gates + [Gate(s.queue.waiting[0].window, rules, result)]
            && (result == FAIL ==>
                  if d.autoRollbackEnabled then
                    t.deployment == d.(status := ROLLED_BACK, currentTrafficPct := 0)
                    && t.promotions == s.promotions + [ROLLBACK]
                  else t.deployment == d.(status := PAUSED) && t.promotions == s.promotions)
            && (result == PASS ==>
                  if next >= d.maxTrafficPct then
                    t.deployment == d.(status := PROMOTED, currentTrafficPct := 100)
                    && t.promotions == s.promotions + [PROMOTE]
                  else
                    t.deployment == d.(currentTrafficPct := next, currentWindow := s.queue.waiting[0].window + 1)
                    && t.promotions == s.promotions)
            && (result == WARN ==> t.deployment == d && t.promotions == s.promotions)
  {
  }

  /** An evaluation is cut short exactly if it does not do all it would. */
  lemma CutShortMeans(s: System, e: Event, writes: nat)
    requires s.deployment.status == ACTIVE && s.queue.waiting != [] && e.Work? && writes >= 3
    requires var window := s.queue.waiting[0].window;
             ForWindow(window + 1) !in s.queue.seen && Retry(window, e.at) !in s.queue.seen
    ensures CutShort(s, e) <==> Step(s, e) != Step(s, e.(writes := writes))
  {
  }

  /** With too few executions nothing is decided, and the same window is evaluated again. */
  lemma TooFewMeans(s: System, e: Event)
    requires s.deployment.status == ACTIVE && s.queue.waiting != [] && e.Work? && e.writes >= 2 && e.executions < 5
    requires Retry(s.queue.waiting[0].window, e.at) !in s.queue.seen
    ensures var t, job := Step(s, e), s.queue.waiting[0];
            && t.deployment == s.deployment && t.promotions == s.promotions
            && t.gates == s.gates + [Gate(job.window, Rules(s.gates), PENDING)]
            && |t.queue.waiting| == |s.queue.waiting| && t.queue.waiting[|t.queue.waiting| - 1].window == job.window
  {
  }

  /** With no job waiting, or the deployment no longer active, the evaluator changes nothing but the queue. */
  lemma {:induction false} Unmoved(s: System, events: seq<Event>)
    requires Unattended(events)
    requires s.queue.waiting == [] || s.deployment.status != ACTIVE
    ensures var t := Run(s, events);
            && t.deployment == s.deployment && t.gates == s.gates && t.promotions == s.promotions
            && (s.queue.waiting == [] ==> t == s)
  {
    if events != [] {
      Unmoved(s, events[..|events| - 1]);
    }
  }

  /** Whatever the evaluator may still do, the canary stays as it is. */
  ghost predicate Stranded(s: System) {
    s.deployment.status == ACTIVE && forall more :: Unattended(more) ==> Run(s, more) == s
  }

  /** An active canary is stranded, until somebody decides by hand, exactly if its last gate warned or something
      broke. */
  lemma StrandedIff(rules: seq<Rule>, start: int, max: int, step: int, autoRollback: bool, events: seq<Event>)
    requires Clocked(events)
    requires Run(Started(rules, start, max, step, autoRollback), events).deployment.status == ACTIVE
    ensures var s0 := Started(rules, start, max, step, autoRollback);
            Stranded(Run(s0, events)) <==> Warned(Run(s0, events)) || Broken(s0, events)
  {
    var s0 := Started(rules, start, max, step, autoRollback);
    var s := Run(s0, events);
    RunSound(rules, start, max, step, autoRollback, events);
    if s.queue.waiting == [] {
      forall more | Unattended(more)
        ensures Run(s, more) == s
      {
        Unmoved(s, more);
      }
    } else {
      var e := Work(map[], 0, 0, 0);
      assert Unattended([e]) && [e][..0] == [];
      assert Run(s, []) == s;
      assert Run(s, [e]).queue.waiting == s.queue.waiting[1..];
    }
  }

  /** A transient error in the first evaluation is enough. */
  lemma OneErrorStrands(rules: seq<Rule>, start: int, max: int, step: int, autoRollback: bool, metrics: Metrics,
                        executions: nat, at: int)
    ensures var s := Run(Started(rules, start, max, step, autoRollback), [Work(metrics, executions, at, 0)]);
            Stranded(s) && !Warned(s) && s.deployment.currentTrafficPct == start
  {
    var s0, events := Started(rules, start, max, step, autoRollback), [Work(metrics, executions, at, 0)];
    assert events[..0] == [];
    assert Run(s0, []) == s0;
    StrandedIff(rules, start, max, step, autoRollback, events);
  }

  lemma {:induction false} ClimbOrder(start: int, step: int, few: nat, many: nat)
    requires step >= 0 && few <= many
    ensures Climb(start, step, few) <= Climb(start, step, many)
    ensures step > 0 && few < many ==> Climb(start, step, few) < Climb(start, step, many)
    decreases many
  {
    if few < many {
      ClimbOrder(start, step, few, many - 1);
    }
  }

  lemma PassStep(s: System, e: Event)
    ensures CountResults(s.gates, PASS) <= CountResults(Step(s, e).gates, PASS) <= CountResults(s.gates, PASS) + 1
  {
    GateAppended(s, e);
    if Step(s, e).gates != s.gates {
      CountSnoc(s.gates, Step(s, e).gates[|s.gates|], PASS);
    }
  }

  lemma NextSteps(rules: seq<Rule>, start: int, max: int, step: int, autoRollback: bool, events: seq<Event>, e: Event)
    ensures var s0 := Started(rules, start, max, step, autoRollback);
            Steps(Run(s0, events)) <= Steps(Run(s0, events + [e]))
  {
    assert (events + [e])[..|events|] == events;
    TrafficCountsPasses(rules, start, max, step, autoRollback, events);
    QueueMoves(Run(Started(rules, start, max, step, autoRollback), events), e);
  }

  lemma {:induction false} StepsGrow(rules: seq<Rule>, start: int, max: int, step: int, autoRollback: bool,
                                    events: seq<Event>, more: seq<Event>)
    ensures var s0 := Started(rules, start, max, step, autoRollback);
            Steps(Run(s0, events)) <= Steps(Run(s0, events + more))
  {
    if more == [] {
      assert events + more == events;
    } else {
      var n := |more| - 1;
      StepsGrow(rules, start, max, step, autoRollback, events, more[..n]);
      NextSteps(rules, start, max, step, autoRollback, events + more[..n], more[n]);
      assert events + more[..n] + [more[n]] == events + more;
    }
  }

  /** In a run of the canary, two moments at which it is active, the second not before the first. */
  ghost predicate BothActive(rules: seq<Rule>, start: int, max: int, step: int, autoRollback: bool,
                             events: seq<Event>, more: seq<Event>) {
    var s0 := Started(rules, start, max, step, autoRollback);
    Run(s0, events).deployment.status == ACTIVE && Run(s0, events + more).deployment.status == ACTIVE
  }

  /** Between two such moments the traffic moves by one step for each window. */
  lemma TrafficMoves(rules: seq<Rule>, start: int, max: int, step: int, autoRollback: bool,
                     events: seq<Event>, more: seq<Event>)
    requires BothActive(rules, start, max, step, autoRollback, events, more)
    ensures var s0 := Started(rules, start, max, step, autoRollback);
            var few, many := Steps(Run(s0, events)), Steps(Run(s0, events + more));
            && few <= many && Below(start, max, step, many)
            && Run(s0, events).deployment.currentTrafficPct == Climb(start, step, few)
            && Run(s0, events + more).deployment.currentTrafficPct == Climb(start, step, many)
  {
    var s0 := Started(rules, start, max, step, autoRollback);
    StepsGrow(rules, start, max, step, autoRollback, events, more);
    TrafficCountsPasses(rules, start, max, step, autoRollback, events);
    TrafficCountsPasses(rules, start, max, step, autoRollback, events + more);
  }

  ghost predicate NeverFalls(rules: seq<Rule>, start: int, max: int, step: int, autoRollback: bool) {
    forall events, more :: BothActive(rules, start, max, step, autoRollback, events, more) ==>
      var s0 := Started(rules, start, max, step, autoRollback);
      Run(s0, events).deployment.currentTrafficPct <= Run(s0, events + more).deployment.currentTrafficPct
  }

  /** Some metrics pass the rules. */
  ghost predicate Passable(rules: seq<Rule>) {
    exists metrics :: Evaluate(rules, Some(metrics)) == PASS
  }

  ghost predicate FirstReaching(start: int, max: int, step: int, passes: nat) {
    passes >= 1 && Climb(start, step, passes) >= max && Below(start, max, step, passes - 1)
  }

  /** An unattended promotion comes with the first pass whose step reaches the maximum. */
  ghost predicate PromotedByPasses(s: System, start: int, max: int, step: int) {
    s.deployment.status == PROMOTED ==> FirstReaching(start, max, step, CountResults(s.gates, PASS))
  }

  lemma PromotingGate(s: System, e: Event)
    requires e.Work? && s.deployment.status == ACTIVE && Step(s, e).deployment.status == PROMOTED
    ensures var t := Step(s, e);
            && s.queue.waiting != [] && |t.gates| == |s.gates| + 1 && t.gates == s.gates + [t.gates[|s.gates|]]
            && t.gates[|s.gates|].result == PASS
            && s.deployment.currentTrafficPct + s.deployment.incrementStepPct >= s.deployment.maxTrafficPct
  {
  }

  lemma PromotionStep(s: System, e: Event, start: int, max: int, step: int)
    requires e.Work? && TrafficByPasses(s, start, max, step) && PromotedByPasses(s, start, max, step)
    ensures PromotedByPasses(Step(s, e), start, max, step)
  {
    var t := Step(s, e);
    if t.deployment.status == PROMOTED && s.deployment.status == ACTIVE {
      PromotingGate(s, e);
      CountSnoc(s.gates, t.gates[|s.gates|], PASS);
    }
  }

  lemma {:induction false} RunPromotes(rules: seq<Rule>, start: int, max: int, step: int, autoRollback: bool,
                                      events: seq<Event>)
    requires Unattended(events)
    ensures PromotedByPasses(Run(Started(rules, start, max, step, autoRollback), events), start, max, step)
  {
    if events != [] {
      var before, e := events[..|events| - 1], events[|events| - 1];
      RunPromotes(rules, start, max, step, autoRollback, before);
      TrafficCountsPasses(rules, start, max, step, autoRollback, before);
      PromotionStep(Run(Started(rules, start, max, step, autoRollback), before), e, start, max, step);
    }
  }

  /** One if one step reaches the maximum, else the distance in steps, rounded up; a step that is not positive
      never reaches what one step does not. */
  function PassesNeeded(start: int, max: int, step: int): Option<nat> {
    if start + step >= max then Some(1)
    else if step > 0 then Some((max - start + step - 1) / step)
    else None
  }

  /** For a positive step that is the larger of one and the quotient rounded up. */
  lemma NeededIsCeiling(start: int, max: int, step: int)
    requires step > 0
    ensures PassesNeeded(start, max, step).Some?
    ensures var n := PassesNeeded(start, max, step).value;
            n >= 1 && n * step >= max - start && (n > 1 ==> (n - 1) * step < max - start)
  {
    if start + step < max {
      var d := max - start + step - 1;
      var n := d / step;
      assert d == n * step + d % step;
      assert (n - 1) * step == n * step - step;
    }
  }

  lemma {:induction false} Descends(start: int, step: int, passes: nat)
    requires step <= 0 && passes >= 1
    ensures Climb(start, step, passes) <= start + step
  {
    if passes > 1 {
      Descends(start, step, passes - 1);
    }
  }

  lemma NeededReaches(start: int, max: int, step: int)
    ensures match PassesNeeded(start, max, step)
            case Some(n) => FirstReaching(start, max, step, n)
            case None => forall passes :: Below(start, max, step, passes)
  {
    if step <= 0 {
      forall k: nat | k >= 1
        ensures Climb(start, step, k) <= start + step
      {
        Descends(start, step, k);
      }
    } else {
      NeededIsCeiling(start, max, step);
      var n := PassesNeeded(start, max, step).value;
      ClimbIs(start, step, n);
      ClimbIs(start, step, n - 1);
      forall k: nat | 1 <= k <= n - 1
        ensures Climb(start, step, k) < max
      {
        ClimbOrder(start, step, k, n - 1);
      }
    }
  }

  lemma FirstIsFirst(start: int, max: int, step: int, first: nat, passes: nat)
    requires FirstReaching(start, max, step, first)
    ensures FirstReaching(start, max, step, passes) ==> passes == first
    ensures Below(start, max, step, passes) ==> passes < first
  {
  }

  /** An unattended canary is promoted after exactly that many passes, and is still climbing before. */
  lemma PromotionTakesExactly(rules: seq<Rule>, start: int, max: int, step: int, autoRollback: bool, events: seq<Event>)
    requires Unattended(events)
    ensures var s := Run(Started(rules, start, max, step, autoRollback), events);
            var passes, needed := CountResults(s.gates, PASS), PassesNeeded(start, max, step);
            && (s.deployment.status == PROMOTED ==> needed == Some(passes))
            && (s.deployment.status == ACTIVE && needed.Some? ==> Steps(s) < needed.value)
  {
    var s := Run(Started(rules, start, max, step, autoRollback), events);
    var passes := if s.deployment.status == ACTIVE then Steps(s) else CountResults(s.gates, PASS);
    TrafficCountsPasses(rules, start, max, step, autoRollback, events);
    RunPromotes(rules, start, max, step, autoRollback, events);
    NeededReaches(start, max, step);
    if PassesNeeded(start, max, step).Some? {
      FirstIsFirst(start, max, step, PassesNeeded(start, max, step).value, passes);
    } else {
      assert Below(start, max, step, passes);
    }
  }

  predicate Passing(e: Event, rules: seq<Rule>) {
    e.Work? && e.writes >= 3 && e.executions >= MIN_EXECUTIONS_FOR_GATE && Evaluate(rules, Some(e.metrics)) == PASS
  }

  lemma PassingStep(s: System, e: Event, rules: seq<Rule>)
    requires s.deployment.status == ACTIVE && SameRules(s, rules) && s.queue.waiting != [] && Passing(e, rules)
    ensures var t := Step(s, e);
            && (t.deployment.status == PROMOTED || t.deployment.status == ACTIVE)
            && t.gates[..|s.gates|] == s.gates && |t.gates| == |s.gates| + 1 && t.gates[|s.gates|].result == PASS
            && !CutShort(s, e)
  {
    assert Rules(s.gates) == rules;
  }

  lemma {:induction false} PassingRun(rules: seq<Rule>, start: int, max: int, step: int, autoRollback: bool,
                                     events: seq<Event>)
    requires Clocked(events) && forall e :: e in events ==> Passing(e, rules)
    ensures var s := Run(Started(rules, start, max, step, autoRollback), events);
            s.deployment.status == PROMOTED
            || (s.deployment.status == ACTIVE && CountResults(s.gates, PASS) == |events|
                && !Warned(s) && !Broken(Started(rules, start, max, step, autoRollback), events))
  {
    var s0 := Started(rules, start, max, step, autoRollback);
    if events == [] {
      CountSnoc([], s0.gates[0], PASS);
      assert [] + [s0.gates[0]] == s0.gates;
    } else {
      var before, e := events[..|events| - 1], events[|events| - 1];
      var s := Run(s0, before);
      PassingRun(rules, start, max, step, autoRollback, before);
      RunSound(rules, start, max, step, autoRollback, before);
      assert Passing(e, rules);
      if s.deployment.status == ACTIVE {
        PassingStep(s, e, rules);
        var t := Step(s, e);
        CountSnoc(s.gates, t.gates[|s.gates|], PASS);
        assert t.gates == s.gates + [t.gates[|s.gates|]];
      }
    }
  }

  lemma {:induction false} PassesAtMostEvaluations(rules: seq<Rule>, start: int, max: int, step: int,
                                                  autoRollback: bool, events: seq<Event>)
    ensures CountResults(Run(Started(rules, start, max, step, autoRollback), events).gates, PASS) <= |events|
  {
    var s0 := Started(rules, start, max, step, autoRollback);
    if events == [] {
      CountSnoc([], s0.gates[0], PASS);
      assert [] + [s0.gates[0]] == s0.gates;
    } else {
      PassesAtMostEvaluations(rules, start, max, step, autoRollback, events[..|events| - 1]);
      PassStep(Run(s0, events[..|events| - 1]), events[|events| - 1]);
    }
  }

  lemma PassingSteps(rules: seq<Rule>, start: int, max: int, step: int, autoRollback: bool, events: seq<Event>)
    requires Clocked(events) && forall e :: e in events ==> Passing(e, rules)
    ensures var s := Run(Started(rules, start, max, step, autoRollback), events);
            s.deployment.status == PROMOTED || (s.deployment.status == ACTIVE && Steps(s) == |events|)
  {
    PassingRun(rules, start, max, step, autoRollback, events);
    RunSound(rules, start, max, step, autoRollback, events);
    TrafficCountsPasses(rules, start, max, step, autoRollback, events);
  }

  /** If every evaluation has enough executions and passes, the canary is promoted after that many of them. */
  lemma PassingPromotes(rules: seq<Rule>, start: int, max: int, step: int, autoRollback: bool, events: seq<Event>)
    requires Clocked(events) && forall e :: e in events ==> Passing(e, rules)
    ensures Run(Started(rules, start, max, step, autoRollback), events).deployment.status == PROMOTED
            <==> PassesNeeded(start, max, step).Some? && |events| >= PassesNeeded(start, max, step).value
  {
    PassingSteps(rules, start, max, step, autoRollback, events);
    assert Unattended(events);
    PromotionTakesExactly(rules, start, max, step, autoRollback, events);
    PassesAtMostEvaluations(rules, start, max, step, autoRollback, events);
  }

  // ---- Which canaries can climb at all ----

  lemma NoPassStep(s: System, e: Event, rules: seq<Rule>)
    requires !Passable(rules) && SameRules(s, rules)
    ensures CountResults(Step(s, e).gates, PASS) == CountResults(s.gates, PASS)
  {
    GateAppended(s, e);
    if Step(s, e).gates != s.gates {
      assert Rules(s.gates) == rules;
      assert Evaluate(rules, Some(e.metrics)) != PASS;
      CountSnoc(s.gates, Step(s, e).gates[|s.gates|], PASS);
    }
  }

  lemma {:induction false} NoPasses(rules: seq<Rule>, start: int, max: int, step: int, autoRollback: bool,
                                    events: seq<Event>)
    requires !Passable(rules)
    ensures var s := Run(Started(rules, start, max, step, autoRollback), events);
            SameRules(s, rules) && CountResults(s.gates, PASS) == 0
  {
    var s0 := Started(rules, start, max, step, autoRollback);
    if events == [] {
      CountSnoc([], s0.gates[0], PASS);
      assert [] + [s0.gates[0]] == s0.gates;
    } else {
      var before, e := events[..|events| - 1], events[|events| - 1];
      NoPasses(rules, start, max, step, autoRollback, before);
      RulesStep(Run(s0, before), e, rules);
      NoPassStep(Run(s0, before), e, rules);
    }
  }

  /** Evaluations of the same metrics, one a millisecond. */
  function Evaluations(metrics: Metrics, n: nat): seq<Event> {
    seq(n, i => Work(metrics, MIN_EXECUTIONS_FOR_GATE, i, 3))
  }

  ghost predicate CanBePromoted(rules: seq<Rule>, start: int, max: int, step: int, autoRollback: bool) {
    exists events :: Clocked(events) && Unattended(events)
                     && Run(Started(rules, start, max, step, autoRollback), events).deployment.status == PROMOTED
  }

  /** An unattended canary can be promoted at all if and only if its rules can be passed and either its step is
      positive or its first step reaches the maximum. Nothing rejects the others. */
  lemma CanBePromotedIff(rules: seq<Rule>, start: int, max: int, step: int, autoRollback: bool)
    ensures CanBePromoted(rules, start, max, step, autoRollback) <==>
            Passable(rules) && (step > 0 || start + step >= max)
  {
    if events :| Clocked(events) && Unattended(events)
                 && Run(Started(rules, start, max, step, autoRollback), events).deployment.status == PROMOTED {
      PromotionTakesExactly(rules, start, max, step, autoRollback, events);
      NeededReaches(start, max, step);
      if !Passable(rules) {
        NoPasses(rules, start, max, step, autoRollback, events);
      }
    }
    if Passable(rules) && (step > 0 || start + step >= max) {
      var metrics :| Evaluate(rules, Some(metrics)) == PASS;
      NeededReaches(start, max, step);
      var events := Evaluations(metrics, PassesNeeded(start, max, step).value);
      PassingPromotes(rules, start, max, step, autoRollback, events);
      assert Clocked(events) && Unattended(events);
    }
  }

  lemma DoesNotFall(rules: seq<Rule>, start: int, max: int, step: int, autoRollback: bool,
                    events: seq<Event>, more: seq<Event>)
    requires step >= 0 || start + step >= max || !Passable(rules)
    requires BothActive(rules, start, max, step, autoRollback, events, more)
    ensures var s0 := Started(rules, start, max, step, autoRollback);
            Run(s0, events).deployment.currentTrafficPct <= Run(s0, events + more).deployment.currentTrafficPct
  {
    var s0 := Started(rules, start, max, step, autoRollback);
    var few, many := Steps(Run(s0, events)), Steps(Run(s0, events + more));
    TrafficMoves(rules, start, max, step, autoRollback, events, more);
    if step >= 0 {
      ClimbOrder(start, step, few, many);
    } else if !Passable(rules) {
      NoPasses(rules, start, max, step, autoRollback, events + more);
      TrafficCountsPasses(rules, start, max, step, autoRollback, events + more);
    } else {
      assert Climb(start, step, 1) == start + step;
    }
  }

  lemma FirstPassFalls(rules: seq<Rule>, start: int, max: int, step: int, autoRollback: bool, metrics: Metrics)
    requires step < 0 && start + step < max && Evaluate(rules, Some(metrics)) == PASS
    ensures !NeverFalls(rules, start, max, step, autoRollback)
  {
    var s0, more := Started(rules, start, max, step, autoRollback), Evaluations(metrics, 1);
    assert [] + more == more;
    PassingRun(rules, start, max, step, autoRollback, more);
    PromotionTakesExactly(rules, start, max, step, autoRollback, more);
    assert BothActive(rules, start, max, step, autoRollback, [], more);
    TrafficMoves(rules, start, max, step, autoRollback, [], more);
    assert Climb(start, step, 1) == start + step;
  }

  /** Traffic never falls while a canary is active, unless its step is negative, does not reach the maximum at once,
      and its rules can be passed; then it falls with the first pass. */
  lemma TrafficNeverFallsIff(rules: seq<Rule>, start: int, max: int, step: int, autoRollback: bool)
    ensures NeverFalls(rules, start, max, step, autoRollback) <==>
            step >= 0 || start + step >= max || !Passable(rules)
  {
    if step >= 0 || start + step >= max || !Passable(rules) {
      forall events, more | BothActive(rules, start, max, step, autoRollback, events, more)
        ensures var s0 := Started(rules, start, max, step, autoRollback);
                Run(s0, events).deployment.currentTrafficPct <= Run(s0, events + more).deployment.currentTrafficPct
      {
        DoesNotFall(rules, start, max, step, autoRollback, events, more);
      }
    } else {
      var metrics :| Evaluate(rules, Some(metrics)) == PASS;
      FirstPassFalls(rules, start, max, step, autoRollback, metrics);
    }
  }
}
