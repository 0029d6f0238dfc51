/** Where every stage of a run leads, told by its input and by what the policy decides. */
module RunFlow {
  import opened Basics
  import opened ComposeValues
  import opened Risk
  import opened Policy
  import opened Replay
  import opened RunGraph
  import opened RunProofs
  import opened RunTheorems
  import opened RunCoverage
  import PortPlan
  import RunBaselines

  /** Nothing is wrong with the files around the Compose file, and its ports can be planned for. */
  ghost predicate MayBoot(doc: Value, setup: Setup) {
    setup.fault.None? && PortPlan.PlanOverlay(doc, setup.port, setup.addresses).Ok?
  }

  /** The baseline is what the chosen file says, and the first boot follows unless something stands against it. */
  ghost predicate BaselineFollows(s: State, setup: Setup, t: State, digest: Digest, doc: Value) {
    && t.run.findings == AnalyzeRisk(doc)
    && t.run.baselinePath == t.run.composePath == s.run.composePath
    && Ok(t.run.baselineHash) == Ok(t.run.currentHash) == HashOf(doc, digest)
    && (MayBoot(doc, setup) && s.run.stop.None? ==> t.stage == Boot && t.run.stop.None?)
    && (MayBoot(doc, setup) && s.run.stop.Some? ==> t.stage == ReportOrNext && t.run.stop == s.run.stop)
    && (!MayBoot(doc, setup) ==> t.stage == ReportOrNext && t.run.stop.Some?)
    && (setup.fault.Some? ==> StopsWith(t, "compatibility:" + setup.fault.value))
  }

  /** What the policy decides is done: the proposal is tried, or the run stops for the reason given. */
  ghost predicate Carries(t: State, d: Policy.Decision) {
    match d
    case Propose(m) => t.stage == Experiment && t.pending == Some(m) && t.run.stop.None?
    case Stopped(reason) => StopsWith(t, reason)
  }

  /** Where one stage leads. */
  ghost predicate Follows(s: State, input: Input, t: State, digest: Digest) {
    && t.history == s.history + [s.stage]
    && match s.stage
       case Intake => t.stage == Baseline && t.run == s.run && t.files == s.files
       case Baseline => s.run.composePath in s.files && input.BaselineInput? &&
                          BaselineFollows(s, input.setup, t, digest, s.files[s.run.composePath])
       case Boot => t.stage in {Boot, Journeys, ReportOrNext}
       case Journeys => t.stage == Observe
       case Observe => t.stage == ProposeNext && t.run == s.run
       case ProposeNext => forall d :: Decides(PolicyView(s.run), d) ==> Carries(t, d)
       case Experiment => t.stage in {Decide, ReportOrNext}
       case Decide => t.stage == ReportOrNext
       case ReportOrNext => t.stage == (if s.run.stop.None? then ProposeNext else End) && t.run.stop == s.run.stop
       case End => false
  }

  lemma BaselineStageFollows(s: State, setup: Setup, digest: Digest, doc: Value)
    requires s.run.composePath in s.files && doc == s.files[s.run.composePath] && BaselineStage(s, setup, digest).Ok?
    ensures BaselineFollows(s, setup, BaselineStage(s, setup, digest).value, digest, doc)
  {
  }

  lemma ProposeStageFollows(s: State)
    requires s.run.stop.None? && ProposeStage(s).Ok?
    ensures forall d :: Decides(PolicyView(s.run), d) ==> Carries(ProposeStage(s).value, d)
  {
    forall d | Decides(PolicyView(s.run), d) ensures Carries(ProposeStage(s).value, d) {
      DecidesUnique(PolicyView(s.run), d, RunGraph.Decision(s.run));
    }
  }

  lemma VisitedRecords(s: State, next: Stage, run: Run)
    requires Visited(s, next, run).Ok?
    ensures Visited(s, next, run).value.history == s.history + [s.stage]
  {
  }

  lemma BaselineRecords(s: State, setup: Setup, digest: Digest)
    requires BaselineStage(s, setup, digest).Ok?
    ensures BaselineStage(s, setup, digest).value.history == s.history + [s.stage]
  {
  }

  lemma BootRecords(s: State, boot: BootResult)
    requires BootStage(s, boot).Ok?
    ensures BootStage(s, boot).value.history == s.history + [s.stage]
    ensures BootStage(s, boot).value.stage in {Boot, Journeys, ReportOrNext}
  {
  }

  lemma JourneysRecords(s: State)
    requires JourneysStage(s).Ok?
    ensures JourneysStage(s).value.history == s.history + [s.stage] && JourneysStage(s).value.stage == Observe
  {
  }

  lemma ProposeRecords(s: State)
    requires ProposeStage(s).Ok?
    ensures ProposeStage(s).value.history == s.history + [s.stage]
  {
  }

  lemma ExperimentRecords(s: State, result: EngineResult, digest: Digest)
    requires FilesValid(s.files) && ExperimentStage(s, result, digest).Ok?
    ensures ExperimentStage(s, result, digest).value.history == s.history + [s.stage]
    ensures ExperimentStage(s, result, digest).value.stage in {Decide, ReportOrNext}
  {
  }

  lemma DecideRecords(s: State, readBack: Value, digest: Digest)
    requires DecideStage(s, readBack, digest).Ok?
    ensures DecideStage(s, readBack, digest).value.history == s.history + [s.stage]
    ensures DecideStage(s, readBack, digest).value.stage == ReportOrNext
  {
  }

  lemma ReportRecords(s: State, digest: Digest)
    requires FilesValid(s.files) && ReportStage(s, digest).Ok?
    ensures var t := ReportStage(s, digest).value;
            t.history == s.history + [s.stage] && t.run.stop == s.run.stop &&
            t.stage == (if s.run.stop.None? then ProposeNext else End)
  {
  }

  lemma StageFollows(s: State, input: Input, digest: Digest)
    requires FilesValid(s.files) && s.stage != End && Step(s, input, digest).Ok?
    requires s.stage == ProposeNext ==> s.run.stop.None?
    ensures Follows(s, input, Step(s, input, digest).value, digest)
  {
    match s.stage
    case Baseline =>
      BaselineRecords(s, input.setup, digest);
      BaselineStageFollows(s, input.setup, digest, s.files[s.run.composePath]);
    case Boot => BootRecords(s, input.boot);
    case Journeys => JourneysRecords(s);
    case ProposeNext =>
      ProposeRecords(s);
      ProposeStageFollows(s);
    case Experiment => ExperimentRecords(s, input.engine, digest);
    case Decide => DecideRecords(s, input.readBack, digest);
    case ReportOrNext => ReportRecords(s, digest);
    case _ => VisitedRecords(s, if s.stage == Intake then Baseline else ProposeNext, s.run);
  }

  lemma NotStopped(s: State)
    requires Counted(s)
    ensures s.stage == ProposeNext ==> s.run.stop.None?
  {
  }

  lemma InvIsCounted(s: State, digest: Digest)
    requires Inv(s, digest)
    ensures Counted(s)
  {
  }

  lemma StepIs(s: State, input: Input, t: State, digest: Digest)
    requires RunStep(s, input, t, digest)
    ensures FilesValid(s.files) && s.stage != End && Step(s, input, digest) == Ok(t)
  {
  }

  /** Every run goes where its inputs and the policy's decisions lead it. */
  lemma RunFollows(states: seq<State>, inputs: seq<Input>, digest: Digest, i: nat, s: State, t: State)
    requires GoodDigest(digest) && IsRun(states, inputs, digest) && i < |inputs| && s == states[i] && t == states[i + 1]
    ensures Follows(s, inputs[i], t, digest)
  {
    RunBaselines.StepAt(states, inputs, digest, i, s, t);
    InvIsCounted(s, digest);
    NotStopped(s);
    StepIs(s, inputs[i], t, digest);
    StageFollows(s, inputs[i], digest);
  }

  function Trail(states: seq<State>, i: nat): (r: seq<Stage>)
    requires i <= |states|
    ensures |r| == i
  {
    seq(i, j requires 0 <= j < i => states[j].stage)
  }

  ghost predicate Recorded(s: State, t: State) {
    t.history == s.history + [s.stage]
  }

  lemma {:induction false} TrailGrows(states: seq<State>, i: nat)
    requires i < |states| && states[0].history == []
    requires forall j :: 0 <= j < |states| - 1 ==> Recorded(states[j], states[j + 1])
    ensures states[i].history == Trail(states, i)
  {
    if i > 0 {
      TrailGrows(states, i - 1);
      assert Recorded(states[i - 1], states[i]);
      assert Trail(states, i) == Trail(states, i - 1) + [states[i - 1].stage];
    }
  }

  /** The history of a run is the list of the stages it went through. */
  lemma HistoryIsTrail(states: seq<State>, inputs: seq<Input>, digest: Digest, i: nat)
    requires GoodDigest(digest) && IsRun(states, inputs, digest) && i < |states|
    ensures states[i].history == Trail(states, i)
  {
    forall j | 0 <= j < |inputs| ensures Recorded(states[j], states[j + 1]) {
      RunFollows(states, inputs, digest, j, states[j], states[j + 1]);
    }
    TrailGrows(states, i);
  }
}
