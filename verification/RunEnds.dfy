/** What a run's end is worth: no false alarms on the way, and a hardened override that is right. */
module RunEnds {
  import opened Basics
  import opened ComposeValues
  import opened ComposeMerge
  import opened Overlay
  import opened OverlayWhole
  import opened Risk
  import opened Mutations
  import opened MutationLaws
  import opened MutationMeaning
  import opened MutationRisk
  import opened Policy
  import opened PolicyHistory
  import opened Replay
  import opened Hardened
  import opened RunGraph
  import opened RunProofs
  import opened RunTheorems

  // ----- stale proposals

  /** What a mutation does to a service depends on what its key means. */
  lemma OutcomeByKey(a: seq<Entry>, b: seq<Entry>, kind: MutationType)
    requires MeansSame(a, b, KeyOf(kind))
    ensures MutateService(a, kind).Ok? <==> MutateService(b, kind).Ok?
  {
    var v, w := GetOr(a, KeyOf(kind), DefaultOf(kind)), GetOr(b, KeyOf(kind), DefaultOf(kind));
    ReadingMeaning(v, w);
    var x, y := CurrentField(a, KeyOf(kind), DefaultOf(kind)), CurrentField(b, KeyOf(kind), DefaultOf(kind));
    if x.Ok? && y.Ok? {
      SatisfiedMeaning(kind, x.value, y.value);
      TmpfsMeaning(x.value, y.value);
    }
  }

  lemma NewPairUntouched(view: PolicyState, m: Mutation)
    requires IsFirstTime(view, m)
    ensures !Touched(view.experiments, m.service, KeyOf(m.kind))
  {
    FirstTimeIsNew(view, m);
    forall i | 0 <= i < |view.experiments|
      ensures !TouchedBy(view.experiments[i], m.service, KeyOf(m.kind))
    {
      if view.experiments[i].mutation.kind != m.kind {
        KeysOfKinds(view.experiments[i].mutation.kind, m.kind);
      }
    }
  }

  /** A first-time proposal, read off the baseline, is accepted on the current file exactly when it
      would have been accepted on the baseline's service; only an empty service name is refused. */
  lemma StaleProposalApplies(run: Run, files: Files, digest: Digest, m: Mutation)
    requires ChainInv(run, files, digest)
    requires Decides(PolicyView(run), Propose(m)) && IsFirstTime(PolicyView(run), m)
    ensures LiveService(files[run.baselinePath], m.service)
    ensures ApplyMutation(files[run.composePath], m).Ok? <==>
            m.service != "" &&
            MutateService(Get(ServicesOf(files[run.baselinePath]), m.service).entries, m.kind).Ok?
  {
    var baseline, current := files[run.baselinePath], files[run.composePath];
    ProposalLive(run, files, digest, m);
    NewPairUntouched(PolicyView(run), m);
    var b, c := Get(ServicesOf(baseline), m.service), Get(ServicesOf(current), m.service);
    assert ServiceDerived(m.service, b, c, run.experiments);
    assert KeyDerived(m.service, b.entries, c.entries, run.experiments, KeyOf(m.kind));
    OutcomeByKey(b.entries, c.entries, m.kind);
    assert m.id == PlainId(m.kind, m.service) && m.id != "";
    CurrentRequest(current, m);
  }

  lemma CurrentRequest(doc: Value, m: Mutation)
    requires HasServices(doc) && Has(ServicesOf(doc), m.service) && Get(ServicesOf(doc), m.service).Mapping?
    requires m.id != "" && m.paramsEmpty
    ensures CheckRequest(doc, m).None? <==> m.service != ""
    ensures m.service != "" ==> ServiceOf(doc, m) == Get(ServicesOf(doc), m.service)
  {
  }

  /** Hence the four mutations whose finding settles the matter are never refused. */
  lemma SettledProposalsApply(run: Run, files: Files, digest: Digest, m: Mutation)
    requires ChainInv(run, files, digest)
    requires Decides(PolicyView(run), Propose(m)) && IsFirstTime(PolicyView(run), m)
    requires m.kind in {DropPrivileged, RemoveDockerSocket, SetNonRoot, BridgeNetwork} && m.service != ""
    ensures ApplyMutation(files[run.composePath], m).Ok?
  {
    StaleProposalApplies(run, files, digest, m);
    FirstTimeIsNew(PolicyView(run), m);
    var i :| 0 <= i < |run.findings| && run.findings[i].service == m.service && AnswerTo(run.findings[i].kind) == Some(m.kind);
    FindingLive(files[run.baselinePath], run.findings[i]);
    FindingIsActionable(Get(ServicesOf(files[run.baselinePath]), m.service).entries);
  }

  // ----- the override of one experiment

  /** `write_overlay` refuses a proposal's candidate exactly when some service is not a mapping. */
  lemma OverlayWrittenIff(run: Run, files: Files, digest: Digest, m: Mutation)
    requires ChainInv(run, files, digest) && Decides(PolicyView(run), Propose(m))
    requires ApplyMutation(files[run.composePath], m).Ok?
    requires HashOf(ApplyMutation(files[run.composePath], m).value, digest).Ok?
    ensures OverlayWritten(files[run.composePath], m) <==> AllMappings(ServicesOf(files[run.composePath]))
  {
    var current := files[run.composePath];
    if OverlayWritten(current, m) {
      WrittenMeansMappings(current, m);
    }
    if AllMappings(ServicesOf(current)) {
      ProposalLive(run, files, digest, m);
      var b := Get(ServicesOf(files[run.baselinePath]), m.service);
      assert ServiceDerived(m.service, b, Get(ServicesOf(current), m.service), run.experiments);
      CandidateWritten(current, m);
    }
  }

  lemma CandidateWritten(current: Value, m: Mutation)
    requires Valid(current) && ApplyMutation(current, m).Ok?
    requires AllMappings(ServicesOf(current)) && HasServices(current)
    requires CanonicalForm(current).Ok? && CanonicalForm(ApplyMutation(current, m).value).Ok?
    requires Has(ServicesOf(current), m.service) && !IsReset(Get(ServicesOf(current), m.service))
    ensures OverlayWritten(current, m)
  {
    var candidate := ApplyMutation(current, m).value;
    var one := [Record("", "", "", m, Keep, "", false)];
    ApplyMutationFrame(current, m);
    DerivedRefl(current);
    DerivedStep(current, current, [], one[0]);
    assert [] + one == one;
    TargetDiffers(current, m);
    OnlyTouched(current, m, one[0]);
    DerivedChanged(current, candidate, one);
    RestorableExists(current, candidate);
    OnlyTargetChanged(current, m);
  }

  lemma OnlyTouched(current: Value, m: Mutation, r: Record)
    requires r.mutation == m && Has(ServicesOf(current), m.service) && !IsReset(Get(ServicesOf(current), m.service))
    ensures TouchedLive(current, [r])
  {
    forall name, key | Touched([r], name, key) ensures name == m.service {
      var i :| 0 <= i < 1 && TouchedBy([r][i], name, key);
    }
  }

  lemma TargetDiffers(current: Value, m: Mutation)
    requires Valid(current) && ApplyMutation(current, m).Ok?
    ensures var candidate := ApplyMutation(current, m).value;
            && HasServices(current) && HasServices(candidate)
            && Has(ServicesOf(current), m.service) && Has(ServicesOf(candidate), m.service)
            && !Same(Get(ServicesOf(current), m.service), Get(ServicesOf(candidate), m.service))
  {
    var candidate := ApplyMutation(current, m).value;
    ApplyMutationFrame(current, m);
    ServiceValid(current, m);
    ServiceValid(candidate, m);
    var b, c := ServiceOf(current, m), ServiceOf(candidate, m);
    MutationSatisfies(b.entries, m.kind);
    if Same(b, c) {
      CanonicalIffSameUpToKeyOrder(b, c);
      MutateServiceMeaning(b.entries, c.entries, m.kind);
    }
  }

  lemma OnlyTargetChanged(current: Value, m: Mutation)
    requires Valid(current) && ApplyMutation(current, m).Ok?
    requires Valid(ApplyMutation(current, m).value)
    requires CheckFrame(current, ApplyMutation(current, m).value).Ok?
    ensures ChangedServices(current, ApplyMutation(current, m).value) == Ok([m.service])
  {
    var candidate := ApplyMutation(current, m).value;
    ApplyMutationFrame(current, m);
    TargetDiffers(current, m);
    ChangedServicesExact(current, candidate);
    var names := ChangedServices(current, candidate).value;
    assert m.service in names;
    OneName(names, m.service);
  }

  lemma OneName(names: seq<string>, name: string)
    requires Distinct(names) && name in names && forall k :: k in names ==> k == name
    ensures names == [name]
  {
    assert |names| > 1 ==> names[0] != names[1];
    forall i | 0 <= i < |names| ensures names[i] == name {
      assert names[i] in names;
    }
  }

  lemma RestorableExists(base: Value, candidate: Value)
    requires Valid(base) && Valid(candidate) && ChangedServices(base, candidate).Ok?
    requires ChangedServices(base, candidate).value != [] && ServicesRestorable(base, candidate)
    ensures CumulativeOverlay(base, candidate).Ok?
  {
    var names, was, now := ChangedServices(base, candidate).value, ServicesOf(base), ServicesOf(candidate);
    ChangedServicesExact(base, candidate);
    ChangedServicesKnown(base, candidate);
    ServicesValid(base);
    ServicesValid(candidate);
    AdmittedComparable(base);
    AdmittedComparable(candidate);
    var combine: Combine := (a, b) => a + b;
    ServicesRestoredIff(names, was, now, combine);
  }

  // ----- the end of a run

  lemma {:induction false} FirstKeep(experiments: seq<Record>) returns (i: nat)
    requires KeepCount(experiments) > 0
    ensures i < |experiments| && experiments[i].verdict == Keep && KeepCount(experiments[..i]) == 0
  {
    var n := |experiments| - 1;
    if KeepCount(experiments[..n]) > 0 {
      i := FirstKeep(experiments[..n]);
      assert experiments[..n][..i] == experiments[..i];
    } else {
      i := n;
    }
  }

  lemma {:induction false} NothingKept(start: Chain, experiments: seq<Record>, digest: Digest)
    requires KeepCount(experiments) == 0 && ReplayChain(start, experiments, digest).Ok?
    ensures ReplayChain(start, experiments, digest) == Ok(start)
  {
    if experiments != [] {
      NothingKept(start, experiments[..|experiments| - 1], digest);
    }
  }

  lemma LastApplied(start: Chain, experiments: seq<Record>, digest: Digest)
    requires experiments != [] && ReplayChain(start, experiments, digest).Ok?
    ensures var before := ReplayChain(start, experiments[..|experiments| - 1], digest);
            before.Ok? && ApplyMutation(before.value.tree, experiments[|experiments| - 1].mutation).Ok?
  {
  }

  /** The first kept mutation was accepted on the baseline itself. */
  lemma FirstKeepApplied(start: Chain, experiments: seq<Record>, digest: Digest, i: nat)
    requires ReplayChain(start, experiments, digest).Ok?
    requires i < |experiments| && KeepCount(experiments[..i]) == 0
    ensures ApplyMutation(start.tree, experiments[i].mutation).Ok?
  {
    ReplayFailsEarly(start, experiments, i + 1, digest);
    PrefixStep(experiments, i);
    LastApplied(start, experiments[..i + 1], digest);
    NothingKept(start, experiments[..i], digest);
  }

  lemma RequestedService(doc: Value, m: Mutation)
    requires CheckRequest(doc, m).None?
    ensures HasServices(doc) && Has(ServicesOf(doc), m.service) && Get(ServicesOf(doc), m.service) == ServiceOf(doc, m)
    ensures ServiceOf(doc, m).Mapping?
  {
  }

  lemma AppliedIs(doc: Value, m: Mutation)
    requires ApplyMutation(doc, m).Ok?
    ensures CheckRequest(doc, m).None? && ServiceOf(doc, m).Mapping? && MutateService(ServiceOf(doc, m).entries, m.kind).Ok?
  {
  }

  /** A document on which a mutation is accepted differs from one on which it is already satisfied. */
  lemma SatisfiedDiffers(baseline: Value, current: Value, m: Mutation)
    requires Valid(baseline) && Valid(current) && CheckRequest(baseline, m).None? && CheckRequest(current, m).None?
    requires MutateService(ServiceOf(baseline, m).entries, m.kind).Ok?
    requires MutateService(ServiceOf(current, m).entries, m.kind).Err?
    ensures Has(ServicesOf(baseline), m.service) && Has(ServicesOf(current), m.service)
    ensures !Same(Get(ServicesOf(baseline), m.service), Get(ServicesOf(current), m.service))
  {
    ServiceValid(baseline, m);
    ServiceValid(current, m);
    RequestedService(baseline, m);
    RequestedService(current, m);
    DoneDiffers(ServiceOf(baseline, m), ServiceOf(current, m), m.kind);
  }

  /** Kept mutations cannot cancel out: some service differs from the baseline's. */
  lemma KeptDiffers(run: Run, files: Files, digest: Digest)
    requires ChainInv(run, files, digest) && KeepCount(run.experiments) > 0
    ensures var b, c := ServicesOf(files[run.baselinePath]), ServicesOf(files[run.composePath]);
            exists name :: Has(b, name) && Has(c, name) && !Same(Get(b, name), Get(c, name))
  {
    var i := FirstKeep(run.experiments);
    FirstKeepApplied(StartOf(run, files), run.experiments, digest, i);
    assert StaysDone(files[run.composePath], run.experiments[i]);
    AppliedIs(files[run.baselinePath], run.experiments[i].mutation);
    SatisfiedDiffers(files[run.baselinePath], files[run.composePath], run.experiments[i].mutation);
  }

  lemma DoneDiffers(b: Value, c: Value, kind: MutationType)
    requires b.Mapping? && c.Mapping? && Valid(b) && Valid(c)
    requires MutateService(b.entries, kind).Ok? && MutateService(c.entries, kind).Err?
    ensures !Same(b, c)
  {
    if Same(b, c) {
      CanonicalIffSameUpToKeyOrder(b, c);
      MutateServiceMeaning(b.entries, c.entries, kind);
    }
  }

  lemma TouchedAreLive(run: Run, files: Files, digest: Digest)
    requires ChainInv(run, files, digest)
    ensures TouchedLive(files[run.baselinePath], run.experiments)
  {
    var baseline := files[run.baselinePath];
    forall name, key | Touched(run.experiments, name, key) && Has(ServicesOf(baseline), name)
      ensures !IsReset(Get(ServicesOf(baseline), name))
    {
      var i :| 0 <= i < |run.experiments| && TouchedBy(run.experiments[i], name, key);
      ProposalsNameFindings(run.baselineHash, run.findings, run.baselinePass, run.experiments, i);
      var k :| 0 <= k < |run.findings| && run.findings[k].service == name;
      FindingLive(baseline, run.findings[k]);
    }
  }

  lemma KeptChanged(run: Run, files: Files, digest: Digest)
    requires ChainInv(run, files, digest) && KeepCount(run.experiments) > 0
    ensures var b, c := files[run.baselinePath], files[run.composePath];
            ChangedServices(b, c).Ok? && ChangedServices(b, c).value != [] && ServicesRestorable(b, c)
  {
    KeptDiffers(run, files, digest);
    TouchedAreLive(run, files, digest);
    DerivedChanged(files[run.baselinePath], files[run.composePath], run.experiments);
  }

  /** The report's replay accepts the chain, with as many keeps as were recorded. */
  lemma ReplayAccepts(run: Run, files: Files, digest: Digest)
    requires ChainInv(run, files, digest)
    ensures var chain := ReplayChain(StartOf(run, files), run.experiments, digest);
            && chain.Ok? && chain.value.keeps == KeepCount(run.experiments) && chain.value.hash == run.currentHash
            && CanonicalForm(chain.value.tree) == CanonicalForm(files[run.composePath])
  {
    ReplayCounts(StartOf(run, files), run.experiments, digest);
    var chain := ReplayChain(StartOf(run, files), run.experiments, digest).value;
    SameMeaningSameForm(chain.tree, files[run.composePath]);
    HashMeansForm(files[run.composePath], digest);
  }

  lemma HashMeansForm(doc: Value, digest: Digest)
    requires HashOf(doc, digest).Ok?
    ensures CanonicalForm(doc).Ok?
  {
  }

  /** At any point of any run the report's replay accepts the chain, and there is a hardened
      override exactly when some experiment was kept. */
  lemma HardenedIffKept(run: Run, files: Files, digest: Digest)
    requires ChainInv(run, files, digest)
    ensures HardenedOverlay(EndsOf(run), run.experiments, files, digest).Some? <==> KeepCount(run.experiments) > 0
    ensures HardenedOverlay(EndsOf(run), run.experiments, files, digest).Some? ==>
              CumulativeOverlay(files[run.baselinePath], files[run.composePath]) ==
              Ok(HardenedOverlay(EndsOf(run), run.experiments, files, digest).value)
  {
    ReplayAccepts(run, files, digest);
    if KeepCount(run.experiments) > 0 {
      KeptChanged(run, files, digest);
      RestorableExists(files[run.baselinePath], files[run.composePath]);
    }
  }

  /** The hardened override gives the file the run ended on. */
  ghost predicate Restored(baseline: Value, overlay: Value, current: Value, combine: Combine) {
    Merge(Effective(baseline), overlay, combine) == Effective(current)
  }

  /** Merged over the baseline, the hardened override gives exactly the file the run ended on, unless the
      baseline's root is itself tagged to be reset. */
  lemma HardenedRestores(run: Run, files: Files, digest: Digest, combine: Combine)
    requires ChainInv(run, files, digest) && KeepCount(run.experiments) > 0
    ensures var overlay := HardenedOverlay(EndsOf(run), run.experiments, files, digest);
            overlay.Some? &&
            (Restored(files[run.baselinePath], overlay.value, files[run.composePath], combine) <==>
             !IsReset(files[run.baselinePath]))
  {
    var baseline, current := files[run.baselinePath], files[run.composePath];
    HardenedIffKept(run, files, digest);
    KeptDiffers(run, files, digest);
    if IsReset(baseline) {
      ResetRootIsNotRestored(baseline, current, combine);
    } else {
      BaselineLive(run, files, digest);
      TouchedAreLive(run, files, digest);
      DerivedRestored(baseline, current, run.experiments, combine);
    }
  }

  lemma OverlayIsMapping(baseline: Value, current: Value)
    requires Valid(baseline) && Valid(current) && CumulativeOverlay(baseline, current).Ok?
    ensures CumulativeOverlay(baseline, current).value.Mapping? && CumulativeOverlay(baseline, current).value.mark == None
  {
  }

  lemma ResetRootIsNotRestored(baseline: Value, current: Value, combine: Combine)
    requires Valid(baseline) && Valid(current) && IsReset(baseline) && TagOf(current) == TagOf(baseline)
    requires CumulativeOverlay(baseline, current).Ok?
    ensures !Restored(baseline, CumulativeOverlay(baseline, current).value, current, combine)
  {
    OverlayIsMapping(baseline, current);
    assert Effective(current) == None;
  }

  lemma BaselineLive(run: Run, files: Files, digest: Digest)
    requires ChainInv(run, files, digest) && run.experiments != [] && !IsReset(files[run.baselinePath])
    ensures FrameLive(files[run.baselinePath])
  {
    ProposalsNameFindings(run.baselineHash, run.findings, run.baselinePass, run.experiments, 0);
    var k :| 0 <= k < |run.findings| && run.findings[k].service == run.experiments[0].mutation.service;
    FindingLive(files[run.baselinePath], run.findings[k]);
  }

  /** Every run that ends reports a hardened override iff it kept something, and that override is right. */
  lemma RunsEndHardened(states: seq<State>, inputs: seq<Input>, digest: Digest, i: nat, combine: Combine)
    requires GoodDigest(digest) && IsRun(states, inputs, digest)
    requires i < |states| && states[i].stage == End
    ensures var s := states[i];
            && s.run.baselinePath in s.files && s.run.composePath in s.files
            && (s.run.hardened.Some? <==> KeepCount(s.run.experiments) > 0)
            && (s.run.hardened.Some? ==>
                  (Restored(s.files[s.run.baselinePath], s.run.hardened.value, s.files[s.run.composePath], combine) <==>
                   !IsReset(s.files[s.run.baselinePath])))
  {
    RunInv(states, inputs, digest, i);
    var s := states[i];
    HardenedIffKept(s.run, s.files, digest);
    if KeepCount(s.run.experiments) > 0 {
      HardenedRestores(s.run, s.files, digest, combine);
    }
  }

  // ----- no false alarms

  /** After the baseline stage, a stage given its kind of input crashes only on a duplicate id. */
  lemma OnlyDuplicatesCrash(s: State, input: Input, digest: Digest)
    requires GoodDigest(digest) && Inv(s, digest) && Faithful(s, input)
    requires s.stage !in {Intake, Baseline, End}
    requires s.stage == Boot ==> input.BootInput?
    requires s.stage == Experiment ==> input.EngineInput?
    requires s.stage == Decide ==> input.FileInput?
    ensures Step(s, input, digest).Err? <==> s.stage == Decide && IdRecorded(s.run, s.record.value)
    ensures Step(s, input, digest).Err? ==> Step(s, input, digest).error == DuplicateExperiment
  {
    StageHistory(s);
    assert s.stage == Journeys ==> s.journeys.Some?;
    assert s.stage == Experiment ==> s.pending.Some?;
    OthersNeverCrash(s, input, digest);
    if s.stage == Decide {
      DecideCrash(s, input.readBack, digest);
    }
  }

  lemma OthersNeverCrash(s: State, input: Input, digest: Digest)
    requires FilesValid(s.files) && |s.history| < MAX_STAGES && s.stage !in {Intake, Baseline, End}
    requires s.stage == Boot ==> input.BootInput?
    requires s.stage == Journeys ==> s.journeys.Some?
    requires s.stage == Experiment ==> input.EngineInput? && s.pending.Some?
    requires s.stage == Decide ==> input.FileInput?
    ensures s.stage != Decide ==> Step(s, input, digest).Ok?
    ensures s.stage == Decide ==> Step(s, input, digest) == DecideStage(s, input.readBack, digest)
  {
    match s.stage
    case Boot => BootNeverCrashes(s, input.boot);
    case Experiment => ExperimentNeverCrashes(s, input.engine, digest);
    case _ =>
  }

  lemma BootNeverCrashes(s: State, boot: BootResult)
    requires |s.history| < MAX_STAGES
    ensures BootStage(s, boot).Ok?
  {
  }

  lemma ExperimentNeverCrashes(s: State, result: EngineResult, digest: Digest)
    requires FilesValid(s.files) && s.pending.Some? && |s.history| < MAX_STAGES
    ensures ExperimentStage(s, result, digest).Ok?
  {
  }

  predicate IdRecorded(run: Run, r: Record) {
    exists i :: 0 <= i < |run.experiments| && run.experiments[i].id == r.id
  }

  lemma StageHistory(s: State)
    requires Counted(s)
    ensures |s.history| < MAX_STAGES
  {
    CountedBound(s);
  }

  lemma DecideCrash(s: State, readBack: Value, digest: Digest)
    requires GoodDigest(digest) && Inv(s, digest) && s.stage == Decide && Faithful(s, FileInput(readBack))
    ensures DecideStage(s, readBack, digest).Err? <==> IdRecorded(s.run, s.record.value)
    ensures DecideStage(s, readBack, digest).Err? ==> DecideStage(s, readBack, digest).error == DuplicateExperiment
  {
    StageHistory(s);
    var r := s.record.value;
    if r.verdict == Keep {
      ProposalLive(s.run, s.files, digest, r.mutation);
      AcceptedIsWritten(s.run, s.files, digest, r, readBack);
    }
    DecideCases(s, readBack, digest);
  }

  lemma DecideCases(s: State, readBack: Value, digest: Digest)
    requires s.record.Some? && |s.history| < MAX_STAGES
    ensures var r := s.record.value;
            var longer := s.run.(experiments := s.run.experiments + [r]);
            var t := DecideStage(s, readBack, digest);
            if IdRecorded(s.run, r) then t == Err(DuplicateExperiment)
            else r.verdict != Keep || MaterializeAccepted(longer, s.files, r, readBack, digest).Ok? ==> t.Ok?
  {
  }

  /** The duplicate check of the decision stage fires exactly when two service names collide. */
  lemma DuplicateIffNamesCollide(s: State, digest: Digest)
    requires Inv(s, digest) && s.stage == Decide
    ensures IdRecorded(s.run, s.record.value) <==>
            exists i :: 0 <= i < |s.run.experiments| &&
              NamesCollide(s.run.experiments[i].mutation, s.record.value.mutation)
  {
    ViewIsState(s.run, s.files, digest);
    RecordedIffNamesCollide(s.run.baselineHash, s.run.findings, s.run.baselinePass, s.run.experiments, s.record.value.mutation);
  }

  /** In terms of what was tried: the retry for a service whose name with the suffix was tried as well, or the first
      try on a service named like the retry of one that was tried twice. */
  lemma DuplicateIffRepeats(s: State, digest: Digest)
    requires Inv(s, digest) && s.stage == Decide
    ensures IdRecorded(s.run, s.record.value) <==> Repeats(s.run.experiments, s.record.value.mutation)
  {
    ViewIsState(s.run, s.files, digest);
    RecordedIffRepeats(s.run.baselineHash, s.run.findings, s.run.baselinePass, s.run.experiments, s.record.value.mutation);
  }

  /** No two findings are on services named S and S + ":after-tmpfs". */
  ghost predicate NoTwins(findings: seq<Finding>) {
    forall i, j :: 0 <= i < |findings| && 0 <= j < |findings| ==> findings[i].service != findings[j].service + RETRY_SUFFIX
  }

  /** Then the duplicate check is dead: in no run does the decision stage crash. */
  lemma DuplicateCheckIsDead(states: seq<State>, inputs: seq<Input>, digest: Digest, i: nat, input: Input)
    requires GoodDigest(digest) && IsRun(states, inputs, digest) && i < |states| && NoTwins(states[i].run.findings)
    requires states[i].stage == Decide && input.FileInput? && Faithful(states[i], input)
    ensures states[i].record.Some? && !IdRecorded(states[i].run, states[i].record.value)
    ensures FilesValid(states[i].files) && Step(states[i], input, digest).Ok?
  {
    RunInv(states, inputs, digest, i);
    var s := states[i];
    FreshRecord(s, digest);
    OnlyDuplicatesCrash(s, input, digest);
  }

  lemma FreshRecord(s: State, digest: Digest)
    requires Inv(s, digest) && s.stage == Decide && NoTwins(s.run.findings)
    ensures !IdRecorded(s.run, s.record.value)
  {
    ViewIsState(s.run, s.files, digest);
    FreshIds(s.run.baselineHash, s.run.findings, s.run.baselinePass, s.run.experiments, s.record.value.mutation);
  }

  /** The engine's path and hash checks never turn an experiment into a STOP. */
  lemma EngineChecksPass(s: State, digest: Digest)
    requires Inv(s, digest) && s.stage == Experiment
    ensures EngineObjection(s.run, HashOf(s.files[s.run.composePath], digest).value).None?
    ensures KeepCount(s.run.experiments) > 0 ==>
              ExpectedPath(s.run.experiments, s.run.currentHash) == Some(s.run.composePath)
  {
    EngineNeverObjects(s.run, s.files, digest);
  }
}
