/** The invariant of the whole run, and the theorems about every run. */
module RunTheorems {
  import opened Basics
  import opened ComposeValues
  import opened Policy
  import opened PolicyHistory
  import opened Replay
  import opened RunGraph
  import opened RunProofs

  const LONGEST_RUN := 42

  // ----- where a run can be after how many stages

  ghost predicate Counted(s: State) {
    var h, b, n := |s.history|, s.bootAttempt, |s.run.experiments|;
    && b <= MAX_BOOT_ATTEMPTS
    && s.repeatedErrors <= (if b == 0 then 0 else b - 1)
    && (b == 0 ==> s.bootErrorHash.None?)
    && match s.stage
       case Intake => h == 0 && b == 0 && n == 0
       case Baseline => h == 1 && b == 0 && n == 0
       case Boot => h == 2 + b && n == 0 && s.run.stop.None?
       case Journeys => h == 2 + b && n == 0 && s.run.stop.None? && s.journeys.Some?
       case Observe => h == 3 + b && n == 0 && s.run.stop.None?
       case ProposeNext => h == 4 + b + 4 * n && n <= MAX_EXPERIMENTS && s.run.stop.None?
       case Experiment => h == 5 + b + 4 * n && n < MAX_EXPERIMENTS && s.run.stop.None?
       case Decide => h == 6 + b + 4 * n && n < MAX_EXPERIMENTS && s.run.stop.None?
       case ReportOrNext => if s.run.stop.None? then h == 3 + b + 4 * n && n <= MAX_EXPERIMENTS else h < LONGEST_RUN
       case End => h <= LONGEST_RUN && s.run.stop.Some?
  }

  ghost predicate BeforeBaseline(s: State) {
    && s.run.experiments == []
    && forall p :: p in s.files ==> !UnderAccepted(p)
  }

  ghost predicate PendingHolds(s: State, digest: Digest)
    requires FilesValid(s.files)
  {
    && (s.stage == Experiment ==> s.pending.Some? && Decides(PolicyView(s.run), Propose(s.pending.value)))
    && (s.stage == Decide ==> s.record.Some? && MadeFrom(s.record.value, s.run, s.files, digest) &&
                              Decides(PolicyView(s.run), Propose(s.record.value.mutation)))
    && (s.stage == End ==> s.run.hardened == HardenedOverlay(EndsOf(s.run), s.run.experiments, s.files, digest))
  }

  /** The chain part of the invariant. */
  ghost predicate Sound(s: State, digest: Digest) {
    && FilesValid(s.files)
    && (if s.stage == Intake || s.stage == Baseline then BeforeBaseline(s) else ChainInv(s.run, s.files, digest))
    && (s.stage == Boot || s.stage == Journeys ==> s.run.experiments == [])
    && PendingHolds(s, digest)
  }

  ghost predicate Inv(s: State, digest: Digest) {
    Counted(s) && Sound(s, digest)
  }

  // ----- counting stages

  lemma BootCounted(s: State, boot: BootResult)
    requires Counted(s) && s.stage == Boot && BootStage(s, boot).Ok?
    ensures Counted(BootStage(s, boot).value)
  {
  }

  lemma ProposeCounted(s: State)
    requires Counted(s) && s.stage == ProposeNext && ProposeStage(s).Ok?
    ensures Counted(ProposeStage(s).value)
  {
    var d := RunGraph.Decision(s.run);
    if d.Propose? {
      ProposalShape(PolicyView(s.run), d.mutation);
    }
  }

  lemma DecideCounted(s: State, readBack: Value, digest: Digest)
    requires Counted(s) && s.stage == Decide && DecideStage(s, readBack, digest).Ok?
    ensures Counted(DecideStage(s, readBack, digest).value)
  {
  }

  lemma ExperimentCounted(s: State, result: EngineResult, digest: Digest)
    requires Counted(s) && s.stage == Experiment && FilesValid(s.files) && ExperimentStage(s, result, digest).Ok?
    ensures Counted(ExperimentStage(s, result, digest).value)
  {
  }

  lemma StepCounted(s: State, input: Input, digest: Digest)
    requires Counted(s) && s.stage != End && FilesValid(s.files) && Step(s, input, digest).Ok?
    ensures Counted(Step(s, input, digest).value)
  {
    match s.stage
    case Boot => BootCounted(s, input.boot);
    case ProposeNext => ProposeCounted(s);
    case Experiment => ExperimentCounted(s, input.engine, digest);
    case Decide => DecideCounted(s, input.readBack, digest);
    case _ =>
  }

  lemma StepVisits(s: State, input: Input, digest: Digest)
    requires s.stage != End && FilesValid(s.files) && Step(s, input, digest).Ok?
    ensures Step(s, input, digest).value.history == s.history + [s.stage]
  {
  }

  // ----- the chain, stage by stage

  lemma ChainIgnores(run: Run, run': Run, files: Files, digest: Digest)
    requires ChainInv(run, files, digest)
    requires run' == run.(stop := run'.stop, hardened := run'.hardened)
    requires run.stop.Some? ==> run'.stop.Some?
    ensures ChainInv(run', files, digest)
  {
  }

  /** A stage that leaves the files alone and changes the run in nothing but its stop. */
  lemma SoundAfter(s: State, t: State, digest: Digest)
    requires Sound(s, digest) && s.stage != Intake && s.stage != Baseline
    requires t.files == s.files && t.run == s.run.(stop := t.run.stop) && (s.run.stop.Some? ==> t.run.stop.Some?)
    requires t.stage == ReportOrNext || t.stage == ProposeNext || (s.stage == Boot && (t.stage == Boot || t.stage == Journeys))
    ensures Sound(t, digest)
  {
    ChainIgnores(s.run, t.run, s.files, digest);
  }

  lemma BootShape(s: State, boot: BootResult)
    requires BootStage(s, boot).Ok?
    ensures var t := BootStage(s, boot).value;
            && t.files == s.files && t.run == s.run.(stop := t.run.stop) && (s.run.stop.Some? ==> t.run.stop.Some?)
            && (t.stage == ReportOrNext || t.stage == Boot || t.stage == Journeys)
  {
  }

  lemma BootSound(s: State, boot: BootResult, digest: Digest)
    requires Sound(s, digest) && s.stage == Boot && BootStage(s, boot).Ok?
    ensures Sound(BootStage(s, boot).value, digest)
  {
    BootShape(s, boot);
    SoundAfter(s, BootStage(s, boot).value, digest);
  }

  lemma JourneysSound(s: State, digest: Digest)
    requires Sound(s, digest) && s.stage == Journeys && JourneysStage(s).Ok?
    ensures Sound(JourneysStage(s).value, digest)
  {
    var t := JourneysStage(s).value;
    assert StartOf(t.run, t.files) == StartOf(s.run, s.files);
  }

  lemma ProposeSound(s: State, digest: Digest)
    requires Sound(s, digest) && s.stage == ProposeNext && s.run.stop.None? && ProposeStage(s).Ok?
    ensures Sound(ProposeStage(s).value, digest)
  {
    ProposeCases(s);
    ProposedSound(s, ProposeStage(s).value, digest);
  }

  /** What the stage changes: the pending mutation, or the stop reason. */
  ghost predicate Proposed(s: State, t: State) {
    && t.files == s.files
    && match RunGraph.Decision(s.run)
       case Stopped(reason) => t.stage == ReportOrNext && t.run == Stopping(s.run, reason)
       case Propose(m) => t.stage == Experiment && t.run == s.run && t.pending == Some(m)
  }

  lemma ProposeCases(s: State)
    requires ProposeStage(s).Ok?
    ensures Proposed(s, ProposeStage(s).value)
  {
  }

  lemma ProposedSound(s: State, t: State, digest: Digest)
    requires FilesValid(s.files) && ChainInv(s.run, s.files, digest) && Proposed(s, t)
    ensures Sound(t, digest)
  {
    ChainIgnores(s.run, t.run, s.files, digest);
  }

  lemma ExperimentCases(s: State, result: EngineResult, digest: Digest)
    requires FilesValid(s.files) && s.pending.Some? && ExperimentStage(s, result, digest).Ok?
    ensures var t := ExperimentStage(s, result, digest).value;
            && t.files == s.files
            && match RunExperiment(s.run, s.files, s.pending.value, result, digest)
               case Err(reason) => t.stage == ReportOrNext && t.run == Stopping(s.run, reason)
               case Ok(record) => t.stage == Decide && t.run == s.run && t.record == Some(record)
  {
  }

  lemma ExperimentSound(s: State, result: EngineResult, digest: Digest)
    requires Sound(s, digest) && s.stage == Experiment && ExperimentStage(s, result, digest).Ok?
    ensures Sound(ExperimentStage(s, result, digest).value, digest)
  {
    var t := ExperimentStage(s, result, digest).value;
    ExperimentCases(s, result, digest);
    ChainIgnores(s.run, t.run, s.files, digest);
    if t.stage == Decide {
      EngineMakes(s.run, s.files, s.pending.value, result, digest);
    }
  }

  lemma KeepSound(s: State, readBack: Value, digest: Digest)
    requires GoodDigest(digest) && Sound(s, digest) && s.stage == Decide && Faithful(s, FileInput(readBack))
    requires s.record.value.verdict == Keep && DecideStage(s, readBack, digest).Ok?
    ensures Sound(DecideStage(s, readBack, digest).value, digest)
  {
    var r := s.record.value;
    var path := AcceptedPath(|s.run.experiments| + 1, r.candidateHash);
    ProposalLive(s.run, s.files, digest, r.mutation);
    AcceptedIsWritten(s.run, s.files, digest, r, readBack);
    KeepKeepsChain(s.run, s.files, digest, r, path, readBack);
    KeptState(s, readBack, digest, path);
  }

  lemma KeptState(s: State, readBack: Value, digest: Digest, path: string)
    requires s.record.Some? && s.record.value.verdict == Keep && DecideStage(s, readBack, digest).Ok?
    requires MaterializeAccepted(s.run.(experiments := s.run.experiments + [s.record.value]), s.files, s.record.value, readBack, digest)
             == Ok((path, s.files[path := readBack]))
    ensures var t := DecideStage(s, readBack, digest).value;
            t.stage == ReportOrNext && t.run == KeptRun(s.run, s.record.value, path) && t.files == s.files[path := readBack]
  {
  }

  lemma RecordedState(s: State, readBack: Value, digest: Digest)
    requires s.record.Some? && s.record.value.verdict != Keep && DecideStage(s, readBack, digest).Ok?
    ensures var t := DecideStage(s, readBack, digest).value;
            && t.stage == ReportOrNext && t.files == s.files
            && t.run == s.run.(experiments := s.run.experiments + [s.record.value], stop := t.run.stop)
            && (s.record.value.verdict == Stop ==> t.run.stop.Some?)
            && (s.run.stop.Some? ==> t.run.stop.Some?)
  {
  }

  lemma RecordSound(s: State, readBack: Value, digest: Digest)
    requires Sound(s, digest) && s.stage == Decide && s.record.value.verdict != Keep
    requires DecideStage(s, readBack, digest).Ok?
    ensures Sound(DecideStage(s, readBack, digest).value, digest)
  {
    RecordedState(s, readBack, digest);
    RecordKeepsChain(s.run, s.files, digest, s.record.value, DecideStage(s, readBack, digest).value.run);
  }

  /** The end of the run: the override is what the report makes of its files. */
  lemma EndSound(s: State, t: State, digest: Digest)
    requires Sound(s, digest) && s.stage == ReportOrNext && t.stage == End && t.files == s.files
    requires t.run == s.run.(hardened := HardenedOverlay(EndsOf(s.run), s.run.experiments, s.files, digest))
    ensures Sound(t, digest)
  {
    ChainIgnores(s.run, t.run, s.files, digest);
    assert EndsOf(t.run) == EndsOf(s.run);
  }

  lemma ReportShape(s: State, digest: Digest)
    requires FilesValid(s.files) && ReportStage(s, digest).Ok?
    ensures var t := ReportStage(s, digest).value;
            && t.files == s.files
            && if s.run.stop.None? then t.stage == ProposeNext && t.run == s.run
               else t.stage == End
                    && t.run == s.run.(hardened := HardenedOverlay(EndsOf(s.run), s.run.experiments, s.files, digest))
  {
  }

  lemma ReportSound(s: State, digest: Digest)
    requires Sound(s, digest) && s.stage == ReportOrNext && ReportStage(s, digest).Ok?
    ensures Sound(ReportStage(s, digest).value, digest)
  {
    ReportShape(s, digest);
    var t := ReportStage(s, digest).value;
    if s.run.stop.None? { SoundAfter(s, t, digest); } else { EndSound(s, t, digest); }
  }

  /** Every faithful step of every stage keeps the invariant. */
  lemma StepKeepsInv(s: State, input: Input, digest: Digest)
    requires GoodDigest(digest) && Inv(s, digest) && s.stage != End && Faithful(s, input)
    requires Step(s, input, digest).Ok?
    ensures Inv(Step(s, input, digest).value, digest)
  {
    StepCounted(s, input, digest);
    StepSound(s, input, digest, Step(s, input, digest).value);
  }

  lemma StepSound(s: State, input: Input, digest: Digest, t: State)
    requires GoodDigest(digest) && Sound(s, digest) && Counted(s) && s.stage != End && Faithful(s, input)
    requires Step(s, input, digest) == Ok(t)
    ensures Sound(t, digest)
  {
    match s.stage
    case Intake =>
    case Baseline => ChainStarts(s, input.setup, digest);
    case Boot => BootSound(s, input.boot, digest);
    case Journeys => JourneysSound(s, digest);
    case Observe =>
    case ProposeNext => ProposeSound(s, digest);
    case Experiment => ExperimentSound(s, input.engine, digest);
    case Decide =>
      if s.record.value.verdict == Keep { KeepSound(s, input.readBack, digest); } else { RecordSound(s, input.readBack, digest); }
    case ReportOrNext => ReportSound(s, digest);
  }

  // ----- whole runs

  lemma CountedBound(s: State)
    requires Counted(s)
    ensures |s.history| <= LONGEST_RUN && s.bootAttempt <= 4 && s.repeatedErrors <= 3
  {
  }

  ghost predicate RunStep(s: State, input: Input, t: State, digest: Digest) {
    && FilesValid(s.files) && s.stage != End
    && Faithful(s, input)
    && Step(s, input, digest) == Ok(t)
  }

  lemma OneStep(s: State, input: Input, t: State, digest: Digest)
    requires GoodDigest(digest) && Inv(s, digest) && RunStep(s, input, t, digest)
    ensures Inv(t, digest) && |t.history| == |s.history| + 1
  {
    StepKeepsInv(s, input, digest);
    StepVisits(s, input, digest);
  }

  lemma {:induction false} RunInv(states: seq<State>, inputs: seq<Input>, digest: Digest, i: nat)
    requires GoodDigest(digest) && IsRun(states, inputs, digest) && i < |states|
    ensures Inv(states[i], digest) && |states[i].history| == i
    decreases i
  {
    if i > 0 {
      RunInv(states, inputs, digest, i - 1);
      assert RunStep(states[i - 1], inputs[i - 1], states[i], digest);
      OneStep(states[i - 1], inputs[i - 1], states[i], digest);
    } else {
      StartInv(states[0], digest);
    }
  }

  lemma StartInv(s: State, digest: Digest)
    requires IsStart(s)
    ensures Inv(s, digest) && |s.history| == 0
  {
  }

  /** No run is longer than 42 stages, so the limit of 64 is never met; boots stay within four attempts. */
  lemma RunsAreShort(states: seq<State>, inputs: seq<Input>, digest: Digest)
    requires GoodDigest(digest) && IsRun(states, inputs, digest)
    ensures |inputs| <= LONGEST_RUN
    ensures forall i :: 0 <= i < |states| ==> states[i].bootAttempt <= 4 && states[i].repeatedErrors <= 3
  {
    forall i | 0 <= i < |states|
      ensures states[i].bootAttempt <= 4 && states[i].repeatedErrors <= 3 && |states[i].history| == i <= LONGEST_RUN
    {
      RunInv(states, inputs, digest, i);
      CountedBound(states[i]);
    }
    assert |states[|inputs|].history| == |inputs|;
  }
}
