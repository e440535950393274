/** What decides a sample of the simulation, and what the rates say. */
module BuilderSamples {
  import opened Wrappers
  import opened BuilderNodes
  import opened BuilderReadiness
  import opened BuilderSimulation
  import Roles = BuilderRoles

  /** The node needs a connector whose gap has the status. */
  ghost predicate Needs(n: Node, gaps: seq<Gap>, status: GapStatus) {
    n.connectorKey != NoConnector && exists g :: g in gaps && g.status == status && g.key == n.connectorKey
  }

  lemma KeysMean(gaps: seq<Gap>, status: GapStatus, n: Node)
    ensures n.connectorKey in Keys(gaps, status) <==> Needs(n, gaps, status)
  {
  }

  /** A count is positive exactly if some node has the property. */
  lemma SomeCounted(nodes: seq<Node>, p: Node -> bool)
    ensures Count(nodes, p) > 0 <==> exists n :: n in nodes && p(n)
  {
    CountZero(nodes, p);
  }

  /** What the simulation works out about the list. */
  lemma FactsMean(nodes: seq<Node>, gaps: seq<Gap>, blocking: nat, injected: nat)
    ensures var f := FactsOf(nodes, gaps, blocking, injected);
            && f.size == |nodes| && (f.blocked <==> blocking != 0) && f.injected == injected
            && (f.hasTrigger <==> nodes != [] && nodes[0].IsTrigger())
            && (f.hasExit <==> nodes != [] && nodes[|nodes| - 1].IsExit())
            && (f.mismatched <==> exists n :: n in nodes && (Needs(n, gaps, Missing) || Needs(n, gaps, Placeholder)))
            && (f.onMissing > 0 <==> exists n :: n in nodes && Needs(n, gaps, Missing))
            && (f.uncovered > 0 <==> exists n :: n in nodes && n.IsRisky() && !n.policyCheckpoint)
            && (f.unapproved > 0 <==> exists n :: n in nodes && n.IsDeploy() && !n.humanApproval)
            && (f.noRetry > 0 <==> exists n :: n in nodes && n.LacksRetry())
            && (f.noPredicate > 0 <==> exists n :: n in nodes && n.LacksPredicate())
  {
    var missing, both := Uses(Keys(gaps, Missing)), Uses(Keys(gaps, Missing) + Keys(gaps, Placeholder));
    forall n
      ensures missing(n) <==> Needs(n, gaps, Missing)
      ensures both(n) <==> Needs(n, gaps, Missing) || Needs(n, gaps, Placeholder)
    {
      KeysMean(gaps, Missing, n);
      KeysMean(gaps, Placeholder, n);
    }
    SomeCounted(nodes, missing);
    SomeCounted(nodes, both);
    SomeCounted(nodes, UNCOVERED);
    SomeCounted(nodes, UNAPPROVED);
    SomeCounted(nodes, NO_RETRY);
    SomeCounted(nodes, NO_PREDICATE);
  }

  lemma ConnectorStops(f: Facts, i: nat)
    requires f.size > 0
    ensures StoppedByConnector(f, i) <==> f.onMissing > 0 && Seed(i) * f.size < 100 * f.onMissing + 30 * f.size
  {
    var share, size := f.onMissing as real / f.size as real, f.size as real;
    assert share * size == f.onMissing as real;
    assert (share * 100.0 + 30.0) * size == 100.0 * f.onMissing as real + 30.0 * size;
    Roles.Scaled(share * 100.0 + 30.0, Seed(i) as real, size, Seed(i) as real * size);
    assert Seed(i) as real * size == (Seed(i) * f.size) as real;
    assert 100.0 * f.onMissing as real + 30.0 * size == (100 * f.onMissing + 30 * f.size) as real;
  }

  /** A sample is executable exactly if nothing blocks it and its seed is high enough for everything that is lacking. */
  lemma ExecutableMeans(f: Facts, i: nat, n: nat)
    ensures Executable(f, i, n) <==>
            && f.size > 0 && !f.blocked
            && (f.hasTrigger || Seed(i) >= 80)
            && (f.onMissing == 0 || Seed(i) * f.size >= 100 * f.onMissing + 30 * f.size)
            && (f.noRetry == 0 || Seed(i) >= 40 || Seed(i) >= 12 * f.noRetry || 5 * i <= 3 * n)
            && (f.noPredicate == 0 || Seed(i) >= 60)
  {
    if f.size > 0 {
      ConnectorStops(f, i);
    }
    assert i as real > n as real * 0.6 <==> 5 * i > 3 * n;
  }

  /** The other three verdicts on a sample. */
  lemma VerdictsMean(f: Facts, i: nat, n: nat)
    ensures var s := SampleAt(f, i, n);
            && s.sampleId == 1 + i && (s.generated <==> f.size != 0 && !f.blocked)
            && (s.executable <==> Executable(f, i, n)) && (s.mismatch <==> f.mismatched)
            && (s.violation <==>
                (f.uncovered != 0 && Seed(i) - 15 * f.uncovered < 40) || (f.unapproved != 0 && Seed(i) < 60))
            && (s.edit <==> f.noPredicate != 0 || (f.size > 2 && !f.hasExit) || (f.injected >= 3 && Seed(i) < 50))
  {
  }

  /** As many samples as the list is complicated, at least ten and at most fifty. */
  lemma SampleCountMeans(risky: nat, branches: nat, gaps: nat)
    ensures SampleCount(risky, branches, gaps) == 50
            || SampleCount(risky, branches, gaps) == 10 + 5 * risky + 3 * branches + 2 * gaps
    ensures SampleCount(risky, branches, gaps) <= 10 + 5 * risky + 3 * branches + 2 * gaps
  {
  }

  datatype Verdict = IsGenerated | IsExecutable | IsMismatch | IsViolation | IsEdit

  predicate Has(s: Sample, v: Verdict) {
    match v
    case IsGenerated => s.generated
    case IsExecutable => s.executable
    case IsMismatch => s.mismatch
    case IsViolation => s.violation
    case IsEdit => s.edit
  }

  /** How many of the samples have the verdict. */
  function Having(samples: seq<Sample>, v: Verdict): nat {
    if samples == [] then 0 else (if Has(samples[0], v) then 1 else 0) + Having(samples[1..], v)
  }

  lemma {:induction false} HavingSnoc(samples: seq<Sample>, s: Sample, v: Verdict)
    ensures Having(samples + [s], v) == Having(samples, v) + if Has(s, v) then 1 else 0
  {
    if samples == [] {
      assert [] + [s] == [s];
      assert [s][1..] == [];
    } else {
      assert (samples + [s])[1..] == samples[1..] + [s];
      HavingSnoc(samples[1..], s, v);
    }
  }

  lemma {:induction false} FilteredCounts(samples: seq<Sample>, p: Sample -> bool, v: Verdict)
    requires forall s :: p(s) == Has(s, v)
    ensures |Filtered(samples, p)| == Having(samples, v)
  {
    if samples != [] {
      var before, last := samples[..|samples| - 1], samples[|samples| - 1];
      FilteredCounts(before, p, v);
      HavingSnoc(before, last, v);
      assert before + [last] == samples;
    }
  }

  /** `rate` is the percentage of `k` among `n`, rounded with halves upwards. */
  ghost predicate IsPercentage(rate: int, k: nat, n: nat) {
    (2 * rate - 1) * n <= 200 * k < (2 * rate + 1) * n
  }

  lemma PercentMeans(k: nat, n: nat)
    requires n > 0
    ensures IsPercentage(Percent(k, n), k, n)
  {
    var share, rate := k as real / n as real, Percent(k, n);
    assert share * n as real == k as real;
    assert share * 100.0 * n as real == 100.0 * k as real;
    Roles.RoundMeans(share * 100.0, 100.0 * k as real, n as real, rate);
    assert (2 * rate - 1) as real * n as real == ((2 * rate - 1) * n) as real;
    assert (2 * rate + 1) as real * n as real == ((2 * rate + 1) * n) as real;
  }

  /** Each rate is the percentage of the samples with its verdict. */
  lemma RatesMean(samples: seq<Sample>)
    requires samples != []
    ensures var r, n := RatesOf(samples), |samples|;
            && r.generation == Percent(Having(samples, IsGenerated), n)
            && r.execution == Percent(Having(samples, IsExecutable), n)
            && r.mismatch == Percent(Having(samples, IsMismatch), n)
            && r.violation == Percent(Having(samples, IsViolation), n)
            && r.edit == Percent(Having(samples, IsEdit), n)
  {
    FilteredCounts(samples, GENERATED, IsGenerated);
    FilteredCounts(samples, EXECUTABLE, IsExecutable);
    FilteredCounts(samples, MISMATCH, IsMismatch);
    FilteredCounts(samples, VIOLATION, IsViolation);
    FilteredCounts(samples, EDIT, IsEdit);
  }
}
