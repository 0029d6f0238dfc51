/** Where the records of a run come from: each is what the engine reported of the experiment before it. */
module RunRecords {
  import opened Basics
  import opened ComposeValues
  import opened Mutations
  import opened Policy
  import opened Replay
  import opened RunGraph
  import opened RunProofs
  import RunBaselines
  import RunCoverage

  /** The sandbox booted and every journey passed again. */
  predicate AllPassed(result: EngineResult) {
    && result.Ran? && result.boot == Pass && result.outcomes != []
    && forall i :: 0 <= i < |result.outcomes| ==> result.outcomes[i].verdict == Pass
  }

  /** The sandbox did not boot, or the first journey that did not pass failed. */
  predicate Regressed(result: EngineResult) {
    && result.Ran? && result.boot != Verdict.Unsupported
    && (result.boot == Fail ||
        exists i :: 0 <= i < |result.outcomes| && result.outcomes[i].verdict == Fail &&
          forall h :: 0 <= h < i ==> result.outcomes[h].verdict == Pass)
  }

  /** The first journey that did not pass. */
  predicate FirstNotPassed(outcomes: seq<JourneyOutcome>, i: nat) {
    && i < |outcomes| && outcomes[i].verdict != Pass
    && forall h :: 0 <= h < i ==> outcomes[h].verdict == Pass
  }

  /** The reason a record gives. */
  ghost predicate ReasonIs(reason: string, result: EngineResult) {
    match result
    case Raised(_) => false
    case Aborted(aborted) => reason == aborted
    case Ran(boot, outcomes, _) =>
      if boot == Fail then reason == "boot_regression"
      else if boot == Verdict.Unsupported then reason == "boot_unsupported"
      else if outcomes == [] then reason == "insufficient_coverage"
      else if AllPassed(result) then reason == "baseline_pass_journeys_preserved"
      else exists i: nat :: FirstNotPassed(outcomes, i) &&
             reason == (if outcomes[i].verdict == Fail then "journey_regression:" else "journey_unsupported:") + outcomes[i].token
  }

  /** What a record says of the experiment it is made from. */
  ghost predicate Reports(r: Record, m: Mutation, result: EngineResult) {
    && r.id == m.id && r.mutation == m && !result.Raised?
    && (r.verdict == Keep <==> AllPassed(result))
    && (r.verdict == Rollback <==> Regressed(result))
    && (r.tmpChange <==> result.Ran? && result.tmpChange) && ReasonIs(r.reason, result)
  }

  lemma OutcomeReports(boot: Verdict, outcomes: seq<JourneyOutcome>, tmp: bool)
    ensures ReplayOutcome(boot, outcomes).0 == Keep <==> AllPassed(Ran(boot, outcomes, tmp))
    ensures ReplayOutcome(boot, outcomes).0 == Rollback <==> Regressed(Ran(boot, outcomes, tmp))
  {
    var bad := FirstBad(outcomes);
    if bad < |outcomes| && outcomes[bad].verdict != Fail {
      assert forall i :: 0 <= i < |outcomes| && outcomes[i].verdict == Fail ==> i > bad;
    }
  }

  lemma OutcomeReason(boot: Verdict, outcomes: seq<JourneyOutcome>, tmp: bool)
    ensures ReasonIs(ReplayOutcome(boot, outcomes).1, Ran(boot, outcomes, tmp))
  {
    if FirstBad(outcomes) < |outcomes| { assert FirstNotPassed(outcomes, FirstBad(outcomes)); }
  }

  /** Nothing stands against the experiment. */
  lemma JudgedReports(m: Mutation, result: EngineResult, parent: string, hash: string)
    requires !result.Raised?
    ensures Reports(Judged(None, true, m, result, parent, hash), m, result)
  {
    if result.Ran? {
      OutcomeReports(result.boot, result.outcomes, result.tmpChange);
      OutcomeReason(result.boot, result.outcomes, result.tmpChange);
    }
  }

  ghost predicate CanApply(doc: Value, m: Mutation, digest: Digest) {
    ApplyMutation(doc, m).Ok? && HashOf(ApplyMutation(doc, m).value, digest).Ok?
  }

  /** What `run_experiment` comes to when nothing stands against the experiment. */
  lemma ExperimentIsJudged(run: Run, files: Files, m: Mutation, result: EngineResult, digest: Digest,
                           current: Value, parent: string, hash: string)
    requires FilesValid(files) && run.composePath in files && current == files[run.composePath]
    requires CanApply(current, m, digest) && OverlayWritten(current, m)
    requires HashOf(current, digest) == Ok(parent) && HashOf(ApplyMutation(current, m).value, digest) == Ok(hash)
    requires EngineObjection(run, parent).None?
    ensures RunExperiment(run, files, m, result, digest) ==
            if result.Raised? then Err(result.reason) else Ok(Judged(None, true, m, result, parent, hash))
  {
  }

  lemma Unprepared(run: Run, files: Files, m: Mutation, result: EngineResult, digest: Digest, current: Value)
    requires FilesValid(files) && run.composePath in files && current == files[run.composePath]
    requires !CanApply(current, m, digest)
    ensures RunExperiment(run, files, m, result, digest).Err?
  {
  }

  /** The experiment goes to its decision exactly if the proposal could be applied and the engine gave a result. */
  ghost predicate Experimented(s: State, input: Input, t: State, digest: Digest) {
    && input.EngineInput? && s.pending.Some? && s.run.composePath in s.files && Valid(s.files[s.run.composePath])
    && t.run.experiments == s.run.experiments
    && if CanApply(s.files[s.run.composePath], s.pending.value, digest) && !input.engine.Raised?
       then t.stage == Decide && t.record.Some? && Reports(t.record.value, s.pending.value, input.engine)
       else t.stage == ReportOrNext && t.run.stop.Some? && t.record.None?
  }

  lemma StageExperimented(s: State, result: EngineResult, digest: Digest, current: Value)
    requires FilesValid(s.files) && s.pending.Some? && s.run.composePath in s.files && current == s.files[s.run.composePath]
    requires HashOf(current, digest).Ok? && EngineObjection(s.run, HashOf(current, digest).value).None?
    requires CanApply(current, s.pending.value, digest) ==> OverlayWritten(current, s.pending.value)
    requires ExperimentStage(s, result, digest).Ok?
    ensures Experimented(s, EngineInput(result), ExperimentStage(s, result, digest).value, digest)
  {
    if CanApply(current, s.pending.value, digest) {
      var m := s.pending.value;
      var parent, hash := HashOf(current, digest).value, HashOf(ApplyMutation(current, m).value, digest).value;
      ExperimentIsJudged(s.run, s.files, m, result, digest, current, parent, hash);
      if !result.Raised? { JudgedReports(m, result, parent, hash); }
    } else {
      Unprepared(s.run, s.files, s.pending.value, result, digest, current);
    }
  }

  lemma CurrentHashed(run: Run, files: Files, digest: Digest)
    requires ChainInv(run, files, digest)
    ensures run.composePath in files && HashOf(files[run.composePath], digest).Ok?
    ensures EngineObjection(run, HashOf(files[run.composePath], digest).value).None?
  {
    EngineNeverObjects(run, files, digest);
  }

  lemma RunExperimented(states: seq<State>, inputs: seq<Input>, digest: Digest, i: nat, s: State, t: State)
    requires GoodDigest(digest) && IsRun(states, inputs, digest) && i < |inputs| && s == states[i] && t == states[i + 1]
    requires s.stage == Experiment
    ensures Experimented(s, inputs[i], t, digest)
  {
    RunBaselines.OverlaysAreWritten(states, inputs, digest, i);
    RunBaselines.StepAt(states, inputs, digest, i, s, t);
    CurrentHashed(s.run, s.files, digest);
    StageExperimented(s, inputs[i].engine, digest, s.files[s.run.composePath]);
  }

  /** The decision stage appends the record, and only a STOP ends the run. */
  ghost predicate Decided(s: State, t: State) {
    && s.record.Some? && t.run.experiments == s.run.experiments + [s.record.value]
    && t.stage == ReportOrNext && t.record.None?
    && (t.run.stop.Some? <==> s.record.value.verdict == Stop)
    && (if s.record.value.verdict == Keep then t.run.currentHash == s.record.value.candidateHash
        else t.run.currentHash == s.run.currentHash && t.run.composePath == s.run.composePath && t.files == s.files)
  }

  lemma StageDecided(s: State, readBack: Value, digest: Digest)
    requires s.run.stop.None? && DecideStage(s, readBack, digest).Ok?
    ensures Decided(s, DecideStage(s, readBack, digest).value)
  {
  }

  lemma RunDecided(states: seq<State>, inputs: seq<Input>, digest: Digest, i: nat, s: State, t: State)
    requires GoodDigest(digest) && IsRun(states, inputs, digest) && i < |inputs| && s == states[i] && t == states[i + 1]
    requires s.stage == Decide
    ensures Decided(s, t)
  {
    RunBaselines.StepAt(states, inputs, digest, i, s, t);
    StageDecided(s, inputs[i].readBack, digest);
  }

  // ----- every record of every run

  /** The experiment behind record `k` is that of stage `j`. */
  ghost predicate MadeAt(states: seq<State>, inputs: seq<Input>, j: nat, k: nat, r: Record) {
    && j < |inputs| && j < |states| && states[j].stage == Experiment && |states[j].run.experiments| == k
    && inputs[j].EngineInput? && states[j].pending.Some? && Reports(r, states[j].pending.value, inputs[j].engine)
  }

  lemma RecordMadeAt(states: seq<State>, inputs: seq<Input>, digest: Digest, i: nat) returns (j: nat)
    requires GoodDigest(digest) && IsRun(states, inputs, digest) && i < |states| && states[i].stage == Decide
    ensures j == i - 1 && states[i].record.Some? && MadeAt(states, inputs, j, |states[i].run.experiments|, states[i].record.value)
  {
    j := i - 1;
    RunCoverage.RunCourse(states, inputs, digest);
    assert RunCoverage.Calm(states[i], i);
    assert RunCoverage.Moves(states[j], inputs[j], states[i]);
    RunExperimented(states, inputs, digest, j, states[j], states[i]);
  }

  /** Records are only ever appended, one at a time, by the decision stage. */
  ghost predicate Appends(s: State, t: State) {
    || t.run.experiments == s.run.experiments
    || (s.stage == Decide && s.record.Some? && t.run.experiments == s.run.experiments + [s.record.value])
  }

  ghost predicate MadeBefore(states: seq<State>, inputs: seq<Input>, i: nat, s: State) {
    s.stage == Decide && s.record.Some? && i > 0 ==> MadeAt(states, inputs, i - 1, |s.run.experiments|, s.record.value)
  }

  lemma AppendsAt(states: seq<State>, inputs: seq<Input>, digest: Digest, i: nat, s: State, t: State)
    requires GoodDigest(digest) && IsRun(states, inputs, digest) && i < |inputs| && s == states[i] && t == states[i + 1]
    ensures Appends(s, t) && MadeBefore(states, inputs, i, s)
  {
    RunCoverage.StageMoves(states, inputs, digest, i, s, t);
    if s.stage == Decide {
      RunDecided(states, inputs, digest, i, s, t);
      if i > 0 { var j := RecordMadeAt(states, inputs, digest, i); }
    }
  }

  lemma {:induction false} RecordIsMade(states: seq<State>, inputs: seq<Input>, i: nat, k: nat) returns (j: nat)
    requires |states| == |inputs| + 1 && states[0].run.experiments == [] && states[0].stage == Intake
    requires forall h :: 0 <= h < |inputs| ==> Appends(states[h], states[h + 1]) && MadeBefore(states, inputs, h, states[h])
    requires i < |states| && k < |states[i].run.experiments|
    ensures j < i && MadeAt(states, inputs, j, k, states[i].run.experiments[k])
    decreases i
  {
    var s := states[i - 1];
    assert Appends(s, states[i]) && MadeBefore(states, inputs, i - 1, s);
    if k < |s.run.experiments| {
      j := RecordIsMade(states, inputs, i - 1, k);
    } else {
      j := i - 2;
    }
  }

  /** Every record of every run is what the engine reported of its experiment: KEEP exactly if every journey passed,
      ROLLBACK exactly if the boot or the first journey that did not pass failed. */
  lemma RecordsComeFromInputs(states: seq<State>, inputs: seq<Input>, digest: Digest, i: nat, k: nat) returns (j: nat)
    requires GoodDigest(digest) && IsRun(states, inputs, digest) && i < |states| && k < |states[i].run.experiments|
    ensures j < i && MadeAt(states, inputs, j, k, states[i].run.experiments[k])
  {
    forall h | 0 <= h < |inputs| ensures Appends(states[h], states[h + 1]) && MadeBefore(states, inputs, h, states[h]) {
      AppendsAt(states, inputs, digest, h, states[h], states[h + 1]);
    }
    j := RecordIsMade(states, inputs, i, k);
  }
}
