/**
 The simulation of a workflow, twice: the server builds samples and filters
 them, the browser keeps counters. Both decide each sample by the same rules.
 */
module BuilderSimulation {
  import opened Wrappers
  import opened BuilderNodes
  import opened BuilderReadiness

  datatype GapStatus = Available | Placeholder | Missing

  datatype Gap = Gap(key: ConnectorKey, status: GapStatus)

  /** What both programs work out about the nodes before they sample. */
  datatype Facts = Facts(
    size: nat, blocked: bool, hasTrigger: bool, hasExit: bool,
    onMissing: nat,           // nodes whose connector is missing
    mismatched: bool,         // some node's connector is missing or a placeholder
    uncovered: nat, unapproved: nat, noRetry: nat, noPredicate: nat, injected: nat)

  function Keys(gaps: seq<Gap>, status: GapStatus): set<ConnectorKey> {
    set g | g in gaps && g.status == status && g.key != NoConnector :: g.key
  }

  function MissingCount(gaps: seq<Gap>): (n: nat)
    ensures n <= |gaps|
  {
    if gaps == [] then 0 else MissingCount(gaps[..|gaps| - 1]) + if gaps[|gaps| - 1].status == Missing then 1 else 0
  }

  const UNCOVERED: Node -> bool := (n: Node) => n.IsRisky() && !n.policyCheckpoint
  const BRANCHING: Node -> bool := (n: Node) => n.IsBranch()

  function Uses(keys: set<ConnectorKey>): Node -> bool {
    (n: Node) => n.connectorKey in keys
  }

  function FactsOf(nodes: seq<Node>, gaps: seq<Gap>, blocking: nat, injected: nat): Facts {
    var missing, placeholder := Keys(gaps, Missing), Keys(gaps, Placeholder);
    Facts(|nodes|, blocking > 0, nodes != [] && nodes[0].IsTrigger(), nodes != [] && nodes[|nodes| - 1].IsExit(),
          Count(nodes, Uses(missing)), Count(nodes, Uses(missing + placeholder)) > 0,
          Count(nodes, UNCOVERED), Count(nodes, UNAPPROVED), Count(nodes, NO_RETRY), Count(nodes, NO_PREDICATE),
          injected)
  }

  function Seed(i: nat): nat {
    (i * 7 + 13) % 100
  }

  predicate Generated(f: Facts) {
    f.size > 0 && !f.blocked
  }

  /** A missing connector stops a sample in proportion to the nodes that need it. */
  predicate StoppedByConnector(f: Facts, i: nat)
    requires f.size > 0
  {
    f.onMissing > 0 && Seed(i) as real < f.onMissing as real / f.size as real * 100.0 + 30.0
  }

  predicate StoppedByRetry(f: Facts, i: nat, samples: nat) {
    && f.noRetry > 0
    && Seed(i) < (if f.noRetry * 12 < 40 then f.noRetry * 12 else 40)
    && i as real > samples as real * 0.6
  }

  predicate Executable(f: Facts, i: nat, samples: nat) {
    && Generated(f)
    && !(!f.hasTrigger && Seed(i) < 80)
    && !StoppedByConnector(f, i)
    && !StoppedByRetry(f, i, samples)
    && !(f.noPredicate > 0 && Seed(i) < 60)
  }

  predicate Violates(f: Facts, i: nat) {
    (f.uncovered > 0 && Seed(i) < 40 + f.uncovered * 15) || (f.unapproved > 0 && Seed(i) < 60)
  }

  predicate NeedsEdit(f: Facts, i: nat) {
    f.noPredicate > 0 || (!f.hasExit && f.size >= 3) || (f.injected > 2 && Seed(i) < 50)
  }

  datatype Sample = Sample(
    sampleId: nat, generated: bool, executable: bool, mismatch: bool, violation: bool, edit: bool)

  function SampleAt(f: Facts, i: nat, samples: nat): Sample {
    Sample(i + 1, Generated(f), Executable(f, i, samples), f.mismatched, Violates(f, i), NeedsEdit(f, i))
  }

  function Samples(f: Facts, n: nat, samples: nat): seq<Sample> {
    if n == 0 then [] else Samples(f, n - 1, samples) + [SampleAt(f, n - 1, samples)]
  }

  function Filtered(samples: seq<Sample>, p: Sample -> bool): (r: seq<Sample>)
    ensures |r| <= |samples|
  {
    if samples == [] then []
    else
      var last := samples[|samples| - 1];
      Filtered(samples[..|samples| - 1], p) + if p(last) then [last] else []
  }

  const GENERATED: Sample -> bool := (s: Sample) => s.generated
  const EXECUTABLE: Sample -> bool := (s: Sample) => s.executable
  const MISMATCH: Sample -> bool := (s: Sample) => s.mismatch
  const VIOLATION: Sample -> bool := (s: Sample) => s.violation
  const EDIT: Sample -> bool := (s: Sample) => s.edit

  function Percent(k: nat, n: nat): int
    requires n > 0
  {
    Round(k as real / n as real * 100.0)
  }

  datatype Rates = Rates(generation: int, execution: int, mismatch: int, violation: int, edit: int)

  datatype Tally = Tally(generated: nat, executable: nat, mismatch: nat, violation: nat, edit: nat)

  function TallyOf(samples: seq<Sample>): Tally {
    Tally(|Filtered(samples, GENERATED)|, |Filtered(samples, EXECUTABLE)|, |Filtered(samples, MISMATCH)|,
          |Filtered(samples, VIOLATION)|, |Filtered(samples, EDIT)|)
  }

  function RatesFrom(t: Tally, n: nat): Rates
    requires n > 0
  {
    Rates(Percent(t.generated, n), Percent(t.executable, n), Percent(t.mismatch, n), Percent(t.violation, n),
          Percent(t.edit, n))
  }

  function RatesOf(samples: seq<Sample>): Rates
    requires samples != []
  {
    RatesFrom(TallyOf(samples), |samples|)
  }

  function SampleCount(risky: nat, branches: nat, gaps: nat): (n: nat)
    ensures 10 <= n <= 50
  {
    var n := 10 + risky * 5 + branches * 3 + gaps * 2;
    if n > 50 then 50 else n
  }

  lemma FilteredSnoc(samples: seq<Sample>, s: Sample, p: Sample -> bool)
    ensures |Filtered(samples + [s], p)| == |Filtered(samples, p)| + if p(s) then 1 else 0
  {
    assert (samples + [s])[..|samples|] == samples;
  }

  lemma {:induction false} SamplesSize(f: Facts, n: nat, samples: nat)
    ensures |Samples(f, n, samples)| == n
  {
    if n > 0 {
      SamplesSize(f, n - 1, samples);
    }
  }

  method DrawSample(f: Facts, i: nat, sampleCount: nat) returns (s: Sample)
    ensures s == SampleAt(f, i, sampleCount)
  {
    var seed := Seed(i);
    var generated := f.size > 0 && !f.blocked;
    var executable := generated;
    if executable {
      if !f.hasTrigger && seed < 80 { executable := false; }
      if executable && StoppedByConnector(f, i) { executable := false; }
      if executable && f.noRetry > 0 {
        var failProb := if f.noRetry * 12 < 40 then f.noRetry * 12 else 40;
        if seed % 100 < failProb && i as real > sampleCount as real * 0.6 { executable := false; }
      }
      if executable && f.noPredicate > 0 && seed < 60 { executable := false; }
    }
    s := Sample(i + 1, generated, executable, f.mismatched, Violates(f, i), NeedsEdit(f, i));
  }

  /** The server: every gap counts towards the number of samples. */
  method RunSimulation(nodes: seq<Node>, gaps: seq<Gap>, blocking: nat, injected: nat)
    returns (sampleCount: nat, rates: Rates)
    ensures sampleCount == SampleCount(Count(nodes, RISKY), Count(nodes, BRANCHING), |gaps|)
    ensures Samples(FactsOf(nodes, gaps, blocking, injected), sampleCount, sampleCount) != []
    ensures rates == RatesOf(Samples(FactsOf(nodes, gaps, blocking, injected), sampleCount, sampleCount))
  {
    sampleCount := SampleCount(Count(nodes, RISKY), Count(nodes, BRANCHING), |gaps|);
    var f := FactsOf(nodes, gaps, blocking, injected);
    var samples: seq<Sample> := [];
    for i := 0 to sampleCount
      invariant samples == Samples(f, i, sampleCount)
    {
      var sample := DrawSample(f, i, sampleCount);
      samples := samples + [sample];
    }
    SamplesSize(f, sampleCount, sampleCount);
    rates := RatesOf(samples);
  }

  method DecideLocally(f: Facts, i: nat, sampleCount: nat)
    returns (generated: bool, executable: bool, violates: bool, edits: bool)
    ensures Sample(i + 1, generated, executable, f.mismatched, violates, edits) == SampleAt(f, i, sampleCount)
  {
    var seed := Seed(i);
    generated := f.size > 0 && !f.blocked;
    executable := generated;
    if executable && !f.hasTrigger && seed < 80 { executable := false; }
    if executable && StoppedByConnector(f, i) { executable := false; }
    if executable && StoppedByRetry(f, i, sampleCount) { executable := false; }
    if executable && f.noPredicate > 0 && seed < 60 { executable := false; }
    violates := (f.uncovered > 0 && seed < 40 + f.uncovered * 15) || (f.unapproved > 0 && seed < 60);
    edits := f.noPredicate > 0 || (!f.hasExit && f.size >= 3) || (f.injected > 2 && seed < 50);
  }

  /** A filtered sample list grows by one exactly where a counter would. */
  lemma TallySnoc(samples: seq<Sample>, s: Sample)
    ensures var t := TallyOf(samples);
            TallyOf(samples + [s]) ==
            Tally(t.generated + (if s.generated then 1 else 0), t.executable + (if s.executable then 1 else 0),
                  t.mismatch + (if s.mismatch then 1 else 0), t.violation + (if s.violation then 1 else 0),
                  t.edit + if s.edit then 1 else 0)
  {
    FilteredSnoc(samples, s, GENERATED);
    FilteredSnoc(samples, s, EXECUTABLE);
    FilteredSnoc(samples, s, MISMATCH);
    FilteredSnoc(samples, s, VIOLATION);
    FilteredSnoc(samples, s, EDIT);
  }

  method CountSamples(f: Facts, sampleCount: nat) returns (rates: Rates)
    requires sampleCount > 0
    ensures Samples(f, sampleCount, sampleCount) != [] && rates == RatesOf(Samples(f, sampleCount, sampleCount))
  {
    var genOk: nat, execOk: nat, connMismatch: nat, polViolation: nat, humanEdit: nat := 0, 0, 0, 0, 0;
    for i := 0 to sampleCount
      invariant Tally(genOk, execOk, connMismatch, polViolation, humanEdit) == TallyOf(Samples(f, i, sampleCount))
    {
      var generated, executable, violates, edits := DecideLocally(f, i, sampleCount);
      TallySnoc(Samples(f, i, sampleCount), SampleAt(f, i, sampleCount));
      if generated { genOk := genOk + 1; }
      if executable { execOk := execOk + 1; }
      if f.mismatched { connMismatch := connMismatch + 1; }
      if violates { polViolation := polViolation + 1; }
      if edits { humanEdit := humanEdit + 1; }
    }
    SamplesSize(f, sampleCount, sampleCount);
    rates := RatesFrom(Tally(genOk, execOk, connMismatch, polViolation, humanEdit), sampleCount);
  }

  /** The browser: only the missing gaps count towards the number of samples. */
  method RunLocalSimulation(nodes: seq<Node>, gaps: seq<Gap>, blocking: nat, injected: nat)
    returns (sampleCount: nat, rates: Rates)
    ensures sampleCount == SampleCount(Count(nodes, RISKY), Count(nodes, BRANCHING), MissingCount(gaps))
    ensures Samples(FactsOf(nodes, gaps, blocking, injected), sampleCount, sampleCount) != []
    ensures rates == RatesOf(Samples(FactsOf(nodes, gaps, blocking, injected), sampleCount, sampleCount))
  {
    sampleCount := SampleCount(Count(nodes, RISKY), Count(nodes, BRANCHING), MissingCount(gaps));
    rates := CountSamples(FactsOf(nodes, gaps, blocking, injected), sampleCount);
  }

  lemma {:induction false} AllMissingIff(gaps: seq<Gap>)
    ensures MissingCount(gaps) == |gaps| <==> forall g :: g in gaps ==> g.status == Missing
  {
    if gaps != [] {
      AllMissingIff(gaps[..|gaps| - 1]);
    }
  }

  /** The programs draw equally many samples, and so agree, unless gaps that are not missing make the server draw
      more. */
  lemma SampleCountsAgreeIff(risky: nat, branches: nat, gaps: seq<Gap>)
    ensures SampleCount(risky, branches, |gaps|) == SampleCount(risky, branches, MissingCount(gaps))
            <==> ((forall g :: g in gaps ==> g.status == Missing)
                  || 10 + risky * 5 + branches * 3 + MissingCount(gaps) * 2 >= 50)
  {
    AllMissingIff(gaps);
  }

  // ---- What the rates can be ----

  lemma PercentInRange(k: nat, n: nat)
    requires 0 < n && k <= n
    ensures 0 <= Percent(k, n) <= 100
  {
    var q := k as real / n as real;
    assert q * n as real == k as real;
    assert 0.0 <= q <= 1.0;
  }

  lemma PercentOrder(j: nat, k: nat, n: nat)
    requires 0 < n && j <= k
    ensures Percent(j, n) <= Percent(k, n)
  {
    assert j as real / n as real <= k as real / n as real;
  }

  lemma {:induction false} FilteredOrder(samples: seq<Sample>, p: Sample -> bool, q: Sample -> bool)
    requires forall s :: s in samples && p(s) ==> q(s)
    ensures |Filtered(samples, p)| <= |Filtered(samples, q)|
  {
    if samples != [] {
      FilteredOrder(samples[..|samples| - 1], p, q);
    }
  }

  lemma {:induction false} SampleIsDrawn(f: Facts, n: nat, samples: nat, s: Sample)
    requires s in Samples(f, n, samples)
    ensures exists i: nat :: i < n && s == SampleAt(f, i, samples)
  {
    if n > 0 && s != SampleAt(f, n - 1, samples) {
      SampleIsDrawn(f, n - 1, samples, s);
    }
  }

  /** Rates are percentages, and no more samples are executable than are generated. */
  lemma RatesInRange(f: Facts, n: nat)
    requires n > 0
    ensures Samples(f, n, n) != []
    ensures var r := RatesOf(Samples(f, n, n));
            && 0 <= r.execution <= r.generation <= 100 && 0 <= r.mismatch <= 100
            && 0 <= r.violation <= 100 && 0 <= r.edit <= 100
  {
    SamplesSize(f, n, n);
    var all := Samples(f, n, n);
    forall s | s in all && EXECUTABLE(s)
      ensures GENERATED(s)
    {
      SampleIsDrawn(f, n, n, s);
    }
    FilteredOrder(all, EXECUTABLE, GENERATED);
    PercentOrder(|Filtered(all, EXECUTABLE)|, |Filtered(all, GENERATED)|, n);
    PercentInRange(|Filtered(all, EXECUTABLE)|, n);
    PercentInRange(|Filtered(all, GENERATED)|, n);
    PercentInRange(|Filtered(all, MISMATCH)|, n);
    PercentInRange(|Filtered(all, VIOLATION)|, n);
    PercentInRange(|Filtered(all, EDIT)|, n);
  }

  /** Seven has an inverse modulo one hundred, so a hundred samples in a row have different seeds. */
  lemma SeedsDiffer(i: nat, j: nat)
    requires i <= j < i + 100 && Seed(i) == Seed(j)
    ensures i == j
  {
    var a, b := i * 7 + 13, j * 7 + 13;
    var k := b / 100 - a / 100;
    assert 7 * (j - i) == b - a == 100 * k;
    assert j - i == 301 * (j - i) - 300 * (j - i) == 100 * (43 * k - 3 * (j - i));
  }

  /** How many of the first `n` seeds a missing trigger does not stop. */
  function HighSeeds(n: nat): nat {
    if n == 0 then 0 else HighSeeds(n - 1) + if Seed(n - 1) >= 80 then 1 else 0
  }

  /** Without a trigger no more samples are executable than have such a seed, and all of these are if nothing else
      stops them. */
  lemma {:induction false} UntriggeredExecutable(f: Facts, n: nat, samples: nat)
    requires !f.hasTrigger
    ensures |Filtered(Samples(f, n, samples), EXECUTABLE)| <= HighSeeds(n)
    ensures Generated(f) && f.onMissing == 0 && f.noRetry == 0 ==>
              |Filtered(Samples(f, n, samples), EXECUTABLE)| == HighSeeds(n)
  {
    if n > 0 {
      UntriggeredExecutable(f, n - 1, samples);
      FilteredSnoc(Samples(f, n - 1, samples), SampleAt(f, n - 1, samples), EXECUTABLE);
    }
  }

  lemma {:induction false} NoHighSeeds(from: nat, until: nat)
    requires from <= until && forall i :: from <= i < until ==> Seed(i) < 80
    ensures HighSeeds(until) == HighSeeds(from)
    decreases until
  {
    if from < until {
      NoHighSeeds(from, until - 1);
    }
  }

  lemma {:induction false} HighSeedsGrow(few: nat, many: nat)
    requires few <= many
    ensures HighSeeds(few) <= HighSeeds(many)
    decreases many
  {
    if few < many {
      HighSeedsGrow(few, many - 1);
    }
  }

  lemma HighSeedNext(n: nat)
    requires Seed(n) >= 80
    ensures HighSeeds(n + 1) == HighSeeds(n) + 1
  {
  }

  lemma ThreeHighSeeds(n: nat)
    requires Seed(n) >= 80 && Seed(n + 1) >= 80 && Seed(n + 2) >= 80
    ensures HighSeeds(n + 3) == HighSeeds(n) + 3
  {
    HighSeedNext(n);
    HighSeedNext(n + 1);
    HighSeedNext(n + 2);
  }

  /** The seeds of 80 and more among the first fifty: three, three and two, with nothing between. */
  lemma HighSeedsFrom(zero: nat)
    requires zero == 0
    ensures HighSeeds(zero + 10) == 0 && HighSeeds(zero + 50) == 8
  {
    NoHighSeeds(zero, zero + 10);
    ThreeHighSeeds(zero + 10);
    NoHighSeeds(zero + 13, zero + 24);
    ThreeHighSeeds(zero + 24);
    NoHighSeeds(zero + 27, zero + 39);
    HighSeedNext(zero + 39);
    HighSeedNext(zero + 40);
    NoHighSeeds(zero + 41, zero + 50);
  }

  /** So at most eight of fifty samples, and none of ten; both bounds are reached. */
  lemma UntriggeredAtMostEight(f: Facts, n: nat)
    requires !f.hasTrigger && n <= 50
    ensures |Filtered(Samples(f, n, n), EXECUTABLE)| <= 8
    ensures n <= 10 ==> |Filtered(Samples(f, n, n), EXECUTABLE)| == 0
    ensures n == 50 && Generated(f) && f.onMissing == 0 && f.noRetry == 0 ==>
              |Filtered(Samples(f, n, n), EXECUTABLE)| == 8
  {
    UntriggeredExecutable(f, n, n);
    HighSeedsFrom(0);
    HighSeedsGrow(n, 50);
    if n <= 10 {
      HighSeedsGrow(n, 10);
    }
  }
}
