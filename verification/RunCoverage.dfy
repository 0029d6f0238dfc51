/** What a run does, told by its inputs alone: how often it boots, and which journeys let it experiment. */
module RunCoverage {
  import opened Basics
  import opened ComposeValues
  import opened Policy
  import opened PolicyHistory
  import opened Replay
  import opened Risk
  import opened Mutations
  import opened RunGraph
  import opened RunProofs
  import opened RunTheorems
  import RunBaselines

  ghost predicate StopsWith(t: State, reason: string) {
    t.stage == ReportOrNext && t.run.stop == Some(reason)
  }

  // ----- the boots of a run

  /** The boot failed in a way that may be tried again. */
  predicate MayRetry(input: Input) {
    input.BootInput? && input.boot.BootFailed? && input.boot.action in {Retry, SetEnv}
  }

  predicate Retried(inputs: seq<Input>, i: nat)
    requires i <= |inputs|
  {
    i >= 2 && forall j :: 2 <= j < i ==> MayRetry(inputs[j])
  }

  function Fingerprints(inputs: seq<Input>, i: nat): (r: seq<nat>)
    requires i <= |inputs| && Retried(inputs, i)
    ensures |r| == i - 2
  {
    seq(i - 2, j requires 0 <= j < i - 2 => inputs[j + 2].boot.fingerprint)
  }

  /** How often in a row the last fingerprint has come again. */
  function Streak(fs: seq<nat>): nat {
    var n := |fs|;
    if n < 2 || fs[n - 1] != fs[n - 2] then 0 else 1 + Streak(fs[..n - 1])
  }

  predicate LastFourAlike(fs: seq<nat>) {
    var n := |fs|;
    n >= 4 && fs[n - 4] == fs[n - 3] == fs[n - 2] == fs[n - 1]
  }

  lemma StreakGrows(fs: seq<nat>, f: nat)
    ensures Streak(fs + [f]) == if fs != [] && fs[|fs| - 1] == f then 1 + Streak(fs) else 0
  {
    assert (fs + [f])[..|fs|] == fs;
  }

  lemma StreakIsLong(fs: seq<nat>)
    ensures Streak(fs) > 2 <==> LastFourAlike(fs)
  {
    var n := |fs|;
    if n >= 2 && fs[n - 1] == fs[n - 2] {
      var a := fs[..n - 1];
      assert Streak(fs) == 1 + Streak(a);
      if n >= 3 && a[n - 2] == a[n - 3] {
        var b := a[..n - 2];
        assert Streak(a) == 1 + Streak(b);
        assert n >= 4 && b[n - 3] == b[n - 4] ==> Streak(b) >= 1;
      }
    }
  }

  ghost predicate BootAfter(s: State, fs: seq<nat>) {
    && s.stage == Boot && s.bootAttempt == |fs| && s.repeatedErrors == Streak(fs)
    && s.bootErrorHash == (if fs == [] then None else Some(fs[|fs| - 1]))
  }

  // ----- the control of a run

  /** What the invariant says of the control alone. */
  ghost predicate Calm(s: State, h: nat) {
    && (s.stage == Intake ==> h == 0) && (s.stage == Baseline ==> h == 1) && (s.stage == Boot ==> h == 2 + s.bootAttempt)
    && (s.stage in {Intake, Baseline, Boot, Journeys} ==> s.run.experiments == [])
    && (s.stage in {Boot, Journeys, Observe, ProposeNext, Experiment, Decide} ==> s.run.stop.None?)
    && (s.stage == End ==> s.run.stop.Some?)
    && s.bootAttempt <= 4 && (s.bootAttempt == 0 ==> s.bootErrorHash.None? && s.repeatedErrors == 0)
  }

  lemma CountedIsCalm(s: State)
    requires Counted(s)
    ensures Calm(s, |s.history|)
  {
  }

  /** Where a stage can lead, and what it leaves as it was. */
  ghost predicate Leads(s: State, t: State) {
    && s.stage != End
    && (t.stage == Boot ==> s.stage == Boot || s.stage == Baseline)
    && (t.stage == Journeys ==> s.stage == Boot)
    && (s.stage != Journeys ==> t.run.baselinePass == s.run.baselinePass)
    && (s.stage in {Intake, Baseline, Boot} && t.stage in {Observe, ProposeNext, Experiment, Decide} ==> false)
    && (s.stage in {Intake, Baseline, Boot} && t.stage == ReportOrNext ==> t.run.stop.Some?)
    && (s.stage == ReportOrNext && s.run.stop.Some? ==> t.stage == End && t.run.stop == s.run.stop)
    && (s.stage != Decide ==> t.run.experiments == s.run.experiments)
    && (t.record.Some? ==> s.stage == Experiment || (t.record == s.record && s.stage != Decide))
    && (s.stage == Experiment && t.record.Some? ==> t.stage == Decide)
    && (s.stage == Observe ==> t.stage == ProposeNext)
    && (s.stage == Boot && t.stage == Boot ==> t.run == s.run)
    && (t.stage == Decide ==> s.stage == Experiment)
  }

  /** Why a run that goes on stops for want of coverage. */
  ghost predicate Uncovered(s: State, input: Input) {
    || s.stage in {Intake, Baseline, Boot}
    || (s.stage == ProposeNext && !s.run.baselinePass)
    || (s.stage == Experiment && input == EngineInput(Raised(COVERAGE)))
  }

  const COVERAGE := "insufficient_coverage"

  ghost predicate NewlyUncovered(s: State, t: State) {
    s.run.stop.None? && t.run.stop == Some(COVERAGE)
  }

  lemma ProposeUncovered(s: State)
    requires s.stage == ProposeNext && ProposeStage(s).Ok? && s.run.stop.None?
    ensures ProposeStage(s).value.run.stop == Some(COVERAGE) ==> !s.run.baselinePass
    ensures s.run.experiments == [] && !s.run.baselinePass ==> StopsWith(ProposeStage(s).value, COVERAGE)
  {
    var d := RunGraph.Decision(s.run);
    if d.Stopped? && s.run.baselinePass {
      assert "experiment_stopped"[0] == "experiment_budget_exhausted"[0] == 'e';
      assert "consecutive_failures"[0] == 'c' && "no_remaining_mutations"[0] == 'n' && COVERAGE[0] == 'i';
    }
  }

  lemma ExperimentUncovered(s: State, result: EngineResult, digest: Digest)
    requires FilesValid(s.files) && s.stage == Experiment && ExperimentStage(s, result, digest).Ok? && s.run.stop.None?
    ensures ExperimentStage(s, result, digest).value.run.stop == Some(COVERAGE) ==> result == Raised(COVERAGE)
  {
    assert "ValueError"[0] == 'V' && "MutationError"[0] == 'M' && "ComposeParseError"[0] == 'C' && COVERAGE[0] == 'i';
  }

  lemma DecideUncovered(s: State, readBack: Value, digest: Digest)
    requires s.stage == Decide && DecideStage(s, readBack, digest).Ok? && s.run.stop.None?
    ensures DecideStage(s, readBack, digest).value.run.stop != Some(COVERAGE)
  {
    assert ("experiment:" + s.record.value.reason)[0] == 'e' && COVERAGE[0] == 'i';
  }

  lemma StepUncovered(s: State, input: Input, t: State, digest: Digest)
    requires RunStep(s, input, t, digest) && NewlyUncovered(s, t)
    ensures Uncovered(s, input)
  {
    match s.stage
    case ProposeNext => ProposeUncovered(s);
    case Experiment => ExperimentUncovered(s, input.engine, digest);
    case Decide => DecideUncovered(s, input.readBack, digest);
    case _ =>
  }

  lemma BaselineLeads(s: State, setup: Setup, digest: Digest)
    requires s.stage == Baseline && BaselineStage(s, setup, digest).Ok?
    ensures Leads(s, BaselineStage(s, setup, digest).value)
  {
  }

  lemma BootLeads(s: State, boot: BootResult)
    requires s.stage == Boot && BootStage(s, boot).Ok?
    ensures Leads(s, BootStage(s, boot).value)
  {
  }

  lemma ProposeLeads(s: State)
    requires s.stage == ProposeNext && ProposeStage(s).Ok?
    ensures Leads(s, ProposeStage(s).value)
  {
  }

  lemma ExperimentLeads(s: State, result: EngineResult, digest: Digest)
    requires FilesValid(s.files) && s.stage == Experiment && ExperimentStage(s, result, digest).Ok?
    ensures Leads(s, ExperimentStage(s, result, digest).value)
  {
  }

  lemma DecideLeads(s: State, readBack: Value, digest: Digest)
    requires s.stage == Decide && DecideStage(s, readBack, digest).Ok?
    ensures Leads(s, DecideStage(s, readBack, digest).value)
  {
  }

  lemma ReportLeads(s: State, digest: Digest)
    requires FilesValid(s.files) && s.stage == ReportOrNext && ReportStage(s, digest).Ok?
    ensures Leads(s, ReportStage(s, digest).value)
  {
  }

  lemma StepLeads(s: State, input: Input, digest: Digest)
    requires FilesValid(s.files) && s.stage != End && Step(s, input, digest).Ok?
    ensures Leads(s, Step(s, input, digest).value)
  {
    match s.stage
    case Baseline => BaselineLeads(s, input.setup, digest);
    case Boot => BootLeads(s, input.boot);
    case ProposeNext => ProposeLeads(s);
    case Experiment => ExperimentLeads(s, input.engine, digest);
    case Decide => DecideLeads(s, input.readBack, digest);
    case ReportOrNext => ReportLeads(s, digest);
    case _ =>
  }

  /** One stage of a run. */
  ghost predicate Moves(s: State, input: Input, t: State) {
    && Leads(s, t)
    && (s.stage == Boot ==> input.BootInput? && BootStage(s, input.boot) == Ok(t))
    && (s.stage == Journeys ==> JourneysStage(s) == Ok(t))
    && (NewlyUncovered(s, t) ==> Uncovered(s, input))
    && (s.stage == ProposeNext && s.run.stop.None? && s.run.experiments == [] && !s.run.baselinePass ==> StopsWith(t, COVERAGE))
  }

  /** The control of a whole run. */
  ghost predicate Course(states: seq<State>, inputs: seq<Input>) {
    && |states| == |inputs| + 1 && states[0].stage == Intake && states[0].record.None?
    && (forall i :: 0 <= i < |states| ==> Calm(states[i], i))
    && forall i :: 0 <= i < |inputs| ==> Moves(states[i], inputs[i], states[i + 1])
  }

  lemma StepMoves(s: State, input: Input, t: State, digest: Digest)
    requires RunStep(s, input, t, digest)
    ensures Moves(s, input, t)
  {
    StepLeads(s, input, digest);
    if NewlyUncovered(s, t) { StepUncovered(s, input, t, digest); }
    if s.stage == ProposeNext && s.run.stop.None? { ProposeUncovered(s); }
  }

  lemma StateIsCalm(states: seq<State>, inputs: seq<Input>, digest: Digest, i: nat, s: State)
    requires GoodDigest(digest) && IsRun(states, inputs, digest) && i < |states| && s == states[i]
    ensures Calm(s, i)
  {
    RunInv(states, inputs, digest, i);
    CountedIsCalm(s);
  }

  lemma StageMoves(states: seq<State>, inputs: seq<Input>, digest: Digest, i: nat, s: State, t: State)
    requires GoodDigest(digest) && IsRun(states, inputs, digest) && i < |inputs| && s == states[i] && t == states[i + 1]
    ensures Moves(s, inputs[i], t)
  {
    RunBaselines.StepAt(states, inputs, digest, i, s, t);
    StepMoves(s, inputs[i], t, digest);
  }

  lemma RunCourse(states: seq<State>, inputs: seq<Input>, digest: Digest)
    requires GoodDigest(digest) && IsRun(states, inputs, digest)
    ensures Course(states, inputs)
  {
    forall i | 0 <= i < |states| ensures Calm(states[i], i) { StateIsCalm(states, inputs, digest, i, states[i]); }
    forall i | 0 <= i < |inputs| ensures Moves(states[i], inputs[i], states[i + 1]) {
      StageMoves(states, inputs, digest, i, states[i], states[i + 1]);
    }
  }

  lemma BootAgain(s: State, input: Input, t: State, fs: seq<nat>)
    requires BootAfter(s, fs) && Moves(s, input, t) && t.stage == Boot
    ensures MayRetry(input) && BootAfter(t, fs + [input.boot.fingerprint])
  {
    StreakGrows(fs, input.boot.fingerprint);
  }

  lemma {:induction false} BootsSoFar(states: seq<State>, inputs: seq<Input>, i: nat)
    requires Course(states, inputs) && i < |states| && states[i].stage == Boot
    ensures Retried(inputs, i) && BootAfter(states[i], Fingerprints(inputs, i))
    ensures forall j :: 2 <= j <= i ==> states[j].stage == Boot
    decreases i
  {
    assert Calm(states[i], i);
    if i > 2 {
      assert Moves(states[i - 1], inputs[i - 1], states[i]) && Calm(states[i - 1], i - 1);
      BootsSoFar(states, inputs, i - 1);
      BootAgain(states[i - 1], inputs[i - 1], states[i], Fingerprints(inputs, i - 1));
      assert Fingerprints(inputs, i) == Fingerprints(inputs, i - 1) + [inputs[i - 1].boot.fingerprint];
    } else {
      assert Fingerprints(inputs, i) == [];
    }
  }

  /** What comes after one boot. */
  ghost predicate AfterBoot(t: State, boot: BootResult, again: bool) {
    match boot
    case Booted(results) => t.stage == Journeys && t.journeys == Some(results)
    case Rejected(reason) => StopsWith(t, reason)
    case BootUnsupported => StopsWith(t, "boot_unsupported")
    case BootFailed(_, _) => if again then t.stage == Boot else StopsWith(t, "boot_recovery_stopped")
  }

  lemma OneBoot(s: State, input: Input, t: State, fs: seq<nat>)
    requires BootAfter(s, fs) && Moves(s, input, t) && |fs| < 4
    ensures AfterBoot(t, input.boot, MayRetry(input) && !LastFourAlike(fs + [input.boot.fingerprint]))
  {
    if input.boot.BootFailed? {
      StreakGrows(fs, input.boot.fingerprint);
      StreakIsLong(fs + [input.boot.fingerprint]);
    }
  }

  lemma FifthBoot(s: State, input: Input, t: State)
    requires s.stage == Boot && s.bootAttempt == 4 && Moves(s, input, t)
    ensures StopsWith(t, "boot_recovery_stopped")
  {
  }

  predicate FailAlike(a: Input, b: Input) {
    && a.BootInput? && a.boot.BootFailed? && b.BootInput? && b.boot.BootFailed?
    && a.boot.fingerprint == b.boot.fingerprint
  }

  /** The three boots before this one failed as it does. */
  predicate FourthTime(inputs: seq<Input>, i: nat)
    requires i < |inputs|
  {
    i >= 5 && forall j :: i - 3 <= j < i ==> FailAlike(inputs[j], inputs[i])
  }

  lemma FourAlike(inputs: seq<Input>, i: nat, fs: seq<nat>)
    requires i < |inputs| && Retried(inputs, i) && MayRetry(inputs[i]) && fs == Fingerprints(inputs, i)
    ensures LastFourAlike(fs + [inputs[i].boot.fingerprint]) <==> FourthTime(inputs, i)
  {
    var gs := fs + [inputs[i].boot.fingerprint];
    assert forall j :: 2 <= j <= i ==> gs[j - 2] == inputs[j].boot.fingerprint;
    if i >= 5 {
      assert gs[i - 2] == inputs[i].boot.fingerprint && gs[i - 3] == inputs[i - 1].boot.fingerprint;
      assert gs[i - 4] == inputs[i - 2].boot.fingerprint && gs[i - 5] == inputs[i - 3].boot.fingerprint;
    }
  }

  /** The boots are stages 2 to 6 of a run, each but the last a failure that says to retry or to set the environment.
      Such a failure is followed by another boot, unless all four boots failed alike; the fifth is never made. */
  lemma BootsByInputs(states: seq<State>, inputs: seq<Input>, digest: Digest, i: nat)
    requires GoodDigest(digest) && IsRun(states, inputs, digest) && i < |inputs| && states[i].stage == Boot
    ensures 2 <= i <= 6 && inputs[i].BootInput?
    ensures forall j :: 2 <= j < i ==> states[j].stage == Boot && MayRetry(inputs[j])
    ensures if i == 6 then StopsWith(states[i + 1], "boot_recovery_stopped")
            else AfterBoot(states[i + 1], inputs[i].boot, MayRetry(inputs[i]) && !FourthTime(inputs, i))
  {
    RunCourse(states, inputs, digest);
    BootsSoFar(states, inputs, i);
    assert Moves(states[i], inputs[i], states[i + 1]) && Calm(states[i], i);
    var fs := Fingerprints(inputs, i);
    if i >= 6 {
      FifthBoot(states[i], inputs[i], states[i + 1]);
    } else {
      OneBoot(states[i], inputs[i], states[i + 1], fs);
      if MayRetry(inputs[i]) { FourAlike(inputs, i, fs); }
    }
  }

  // ----- the journeys that let a run go on

  /** This input says that the project booted, with these journeys. */
  predicate BootedAt(states: seq<State>, inputs: seq<Input>, j: nat, results: seq<Verdict>) {
    j < |inputs| && j < |states| && states[j].stage == Boot && inputs[j] == BootInput(Booted(results))
  }

  /** The run is past its journeys. */
  ghost predicate Past(s: State) {
    || s.stage in {Observe, ProposeNext, Experiment, Decide}
    || (s.stage == ReportOrNext && s.run.stop.None?)
    || s.run.experiments != []
  }

  lemma PastComesFrom(s: State, input: Input, t: State, h: nat)
    requires Calm(s, h) && Moves(s, input, t) && Past(t)
    ensures if s.stage == Journeys then s.journeys.Some? && (t.run.baselinePass <==> Pass in s.journeys.value)
            else Past(s) && t.run.baselinePass == s.run.baselinePass
  {
  }

  lemma JourneysComeFrom(s: State, input: Input, t: State)
    requires Moves(s, input, t) && t.stage == Journeys
    ensures s.stage == Boot && input.BootInput? && input.boot.Booted? && t.journeys == Some(input.boot.results)
  {
  }

  /** A run past its journeys has booted, and what it makes of them is whether one passed. */
  lemma {:induction false} PastHasBooted(states: seq<State>, inputs: seq<Input>, i: nat) returns (j: nat, results: seq<Verdict>)
    requires Course(states, inputs) && i < |states| && Past(states[i])
    ensures j < i && BootedAt(states, inputs, j, results) && (states[i].run.baselinePass <==> Pass in results)
    decreases i
  {
    assert Calm(states[0], 0) && Calm(states[i], i);
    assert Moves(states[i - 1], inputs[i - 1], states[i]) && Calm(states[i - 1], i - 1);
    PastComesFrom(states[i - 1], inputs[i - 1], states[i], i - 1);
    if states[i - 1].stage == Journeys {
      j := i - 2;
      assert Moves(states[j], inputs[j], states[i - 1]);
      JourneysComeFrom(states[j], inputs[j], states[i - 1]);
      results := inputs[j].boot.results;
    } else {
      j, results := PastHasBooted(states, inputs, i - 1);
    }
  }

  lemma {:induction false} RecordsAreDecided(states: seq<State>, inputs: seq<Input>, i: nat)
    requires Course(states, inputs) && i < |states| && states[i].record.Some?
    ensures states[i].stage == Decide
    decreases i
  {
    if i > 0 {
      assert Moves(states[i - 1], inputs[i - 1], states[i]);
      if states[i - 1].record.Some? { RecordsAreDecided(states, inputs, i - 1); }
    }
  }

  /** Only the policy lets a run experiment. */
  lemma DecidedMeansPass(view: PolicyState, m: Mutation)
    requires Decides(view, Propose(m))
    ensures view.baselinePass
  {
  }

  lemma TriedMeansPass(baseline: string, findings: seq<Finding>, pass: bool, experiments: seq<Record>)
    requires FromPolicy(baseline, findings, pass, experiments) && experiments != []
    ensures pass
  {
    assert ProposedAt(baseline, findings, pass, experiments, 0);
    DecidedMeansPass(StateBefore(baseline, findings, pass, experiments[..0]), experiments[0].mutation);
  }

  lemma ExperimentMeansPass(s: State, digest: Digest)
    requires Inv(s, digest)
    ensures s.stage in {Experiment, Decide} || s.run.experiments != [] ==> s.run.baselinePass
  {
    var run := s.run;
    if s.stage == Experiment { DecidedMeansPass(PolicyView(run), s.pending.value); }
    if s.stage == Decide { DecidedMeansPass(PolicyView(run), s.record.value.mutation); }
    if run.experiments != [] { TriedMeansPass(run.baselineHash, run.findings, run.baselinePass, run.experiments); }
  }

  /** Behind every experiment is a boot with a journey that passed. */
  lemma ExperimentsNeedCoverage(states: seq<State>, inputs: seq<Input>, digest: Digest, i: nat)
    returns (j: nat, results: seq<Verdict>)
    requires GoodDigest(digest) && IsRun(states, inputs, digest) && i < |states|
    requires states[i].stage in {Experiment, Decide} || states[i].record.Some? || states[i].run.experiments != []
    ensures j < i && states[j].stage == Boot && inputs[j] == BootInput(Booted(results)) && Pass in results
  {
    RunCourse(states, inputs, digest);
    if states[i].record.Some? { RecordsAreDecided(states, inputs, i); }
    RunInv(states, inputs, digest, i);
    ExperimentMeansPass(states[i], digest);
    j, results := PastHasBooted(states, inputs, i);
  }

  /** The project boots once. */
  lemma BootedOnce(states: seq<State>, inputs: seq<Input>, j: nat, results: seq<Verdict>, i: nat)
    requires Course(states, inputs) && BootedAt(states, inputs, j, results) && j < i < |states|
    ensures states[i].stage != Boot
  {
    assert Moves(states[j], inputs[j], states[j + 1]);
    if states[i].stage == Boot { BootsSoFar(states, inputs, i); }
  }

  lemma BootedPasses(states: seq<State>, inputs: seq<Input>, j: nat, results: seq<Verdict>, i: nat)
    requires Course(states, inputs) && BootedAt(states, inputs, j, results) && j < i < |states| && Past(states[i])
    ensures states[i].run.baselinePass <==> Pass in results
  {
    var k, others := PastHasBooted(states, inputs, i);
    if k < j { BootedOnce(states, inputs, k, others, j); }
    if j < k { BootedOnce(states, inputs, j, results, k); }
  }

  /** The stage that stops a run with a journey that passed for want of coverage. */
  lemma CoveredStage(states: seq<State>, inputs: seq<Input>, j: nat, results: seq<Verdict>, k: nat)
    requires Course(states, inputs) && BootedAt(states, inputs, j, results) && Pass in results
    requires j <= k < |inputs| && NewlyUncovered(states[k], states[k + 1])
    ensures j < k && states[k].stage == Experiment && inputs[k] == EngineInput(Raised(COVERAGE))
  {
    assert Moves(states[k], inputs[k], states[k + 1]) && Calm(states[k], k) && Calm(states[j], j);
    assert Moves(states[j], inputs[j], states[j + 1]);
    if j < k {
      BootedOnce(states, inputs, j, results, k);
      if Past(states[k]) { BootedPasses(states, inputs, j, results, k); }
    }
  }

  lemma {:induction false} FirstStopped(states: seq<State>, j: nat, i: nat) returns (k: nat)
    requires j < i < |states| && states[j].run.stop.None? && states[i].run.stop == Some(COVERAGE)
    requires forall h :: j <= h < i && states[h].run.stop.Some? ==> states[h + 1].run.stop == states[h].run.stop
    ensures j <= k < i && NewlyUncovered(states[k], states[k + 1])
    decreases i
  {
    if states[i - 1].run.stop.Some? { k := FirstStopped(states, j, i - 1); } else { k := i - 1; }
  }

  lemma StopStays(s: State, t: State, h: nat)
    requires Calm(s, h) && Leads(s, t) && h > 1 && s.run.stop.Some?
    ensures t.run.stop == s.run.stop && t.run.experiments == s.run.experiments && t.stage == End
  {
  }

  /** After a boot with a journey that passed, only the engine itself can stop the run for want of coverage. */
  lemma CoverageIsEnough(states: seq<State>, inputs: seq<Input>, digest: Digest, j: nat, results: seq<Verdict>, i: nat)
    returns (k: nat)
    requires GoodDigest(digest) && IsRun(states, inputs, digest) && j < i < |states|
    requires states[j].stage == Boot && inputs[j] == BootInput(Booted(results)) && Pass in results
    requires states[i].run.stop == Some("insufficient_coverage")
    ensures j < k < i && states[k].stage == Experiment && inputs[k] == EngineInput(Raised("insufficient_coverage"))
  {
    RunCourse(states, inputs, digest);
    assert Calm(states[j], j);
    BootsSoFar(states, inputs, j);
    forall h | j <= h < i && states[h].run.stop.Some? ensures states[h + 1].run.stop == states[h].run.stop {
      assert Calm(states[h], h) && Moves(states[h], inputs[h], states[h + 1]);
      StopStays(states[h], states[h + 1], h);
    }
    k := FirstStopped(states, j, i);
    CoveredStage(states, inputs, j, results, k);
  }

  lemma UncoveredStops(states: seq<State>, inputs: seq<Input>, j: nat, results: seq<Verdict>)
    requires Course(states, inputs) && BootedAt(states, inputs, j, results) && Pass !in results && j + 4 < |states| && j < 6
    ensures StopsWith(states[j + 4], COVERAGE) && states[j + 4].run.experiments == []
  {
    assert Moves(states[j], inputs[j], states[j + 1]) && Calm(states[j], j) && Calm(states[j + 1], j + 1);
    assert Moves(states[j + 1], inputs[j + 1], states[j + 2]) && Calm(states[j + 2], j + 2);
    assert Moves(states[j + 2], inputs[j + 2], states[j + 3]) && Calm(states[j + 3], j + 3);
    assert Moves(states[j + 3], inputs[j + 3], states[j + 4]);
  }

  lemma {:induction false} StoppedStays(states: seq<State>, inputs: seq<Input>, k: nat, i: nat)
    requires Course(states, inputs) && 1 < k <= i < |states| && states[k].run.stop.Some?
    ensures states[i].run.stop == states[k].run.stop && states[i].run.experiments == states[k].run.experiments
    decreases i
  {
    if k < i {
      StoppedStays(states, inputs, k, i - 1);
      assert Calm(states[i - 1], i - 1) && Moves(states[i - 1], inputs[i - 1], states[i]);
      StopStays(states[i - 1], states[i], i - 1);
    }
  }

  /** After a boot none of whose journeys passed, the run stops for want of coverage without an experiment. */
  lemma NoCoverageStops(states: seq<State>, inputs: seq<Input>, digest: Digest, j: nat, results: seq<Verdict>, i: nat)
    requires GoodDigest(digest) && IsRun(states, inputs, digest) && j + 4 <= i < |states| && j < 6
    requires states[j].stage == Boot && inputs[j] == BootInput(Booted(results)) && Pass !in results
    ensures states[i].run.stop == Some("insufficient_coverage") && states[i].run.experiments == []
  {
    RunCourse(states, inputs, digest);
    BootsSoFar(states, inputs, j);
    UncoveredStops(states, inputs, j, results);
    StoppedStays(states, inputs, j + 4, i);
  }
}
