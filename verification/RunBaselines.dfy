/** What the baseline stage's compatibility plan guarantees for the rest of every run. */
module RunBaselines {
  import opened ComposeValues
  import opened ComposeMerge
  import opened Overlay
  import opened Risk
  import opened Mutations
  import opened Policy
  import opened PolicyHistory
  import opened Replay
  import opened Hardened
  import opened RunGraph
  import opened RunProofs
  import opened RunTheorems
  import opened RunEnds
  import PortMeaning
  import PortPlan

  /** The services can be read, and all of them are mappings. */
  ghost predicate Readable(doc: Value) {
    HasServices(doc) && !IsReset(Get(doc.entries, "services")) && AllMappings(ServicesOf(doc))
  }

  predicate NoHostNetwork(findings: seq<Finding>) {
    forall i :: 0 <= i < |findings| ==> findings[i].kind != HostNetwork
  }

  // ----- what a plan means

  lemma ServicesPlanned(services: seq<Entry>, k: nat, setup: Setup)
    requires PortPlan.BindingsFrom(services, 0, setup.addresses).Ok? && k < |services|
    ensures services[k].value.Mapping? && !Flagged(services[k].value.entries, HostNetwork)
  {
    if PortPlan.ServiceBindings(services[k].key, services[k].value, setup.addresses).Err? {
      PortPlan.ServiceStops(services, 0, k, setup.addresses);
    } else if Flagged(services[k].value.entries, HostNetwork) {
      PortPlan.HostNetworkRefused(services[k].value.entries);
    }
  }

  lemma PlanMeansReadable(doc: Value, setup: Setup)
    requires CompatibilityStop(doc, setup).None?
    ensures Readable(doc) && PortPlan.BindingsFrom(ServicesOf(doc), 0, setup.addresses).Ok?
  {
    var services := PortPlan.CheckServices(doc).value;
    assert services == ServicesOf(doc);
    forall k | 0 <= k < |services| ensures services[k].value.Mapping? { ServicesPlanned(services, k, setup); }
  }

  lemma PlanMeansNoHostNetwork(doc: Value, setup: Setup)
    requires Valid(doc) && CompatibilityStop(doc, setup).None?
    ensures NoHostNetwork(AnalyzeRisk(doc))
  {
    PlanMeansReadable(doc, setup);
    var findings, services := AnalyzeRisk(doc), ServicesOf(doc);
    forall i | 0 <= i < |findings| ensures findings[i].kind != HostNetwork {
      FindingLive(doc, findings[i]);
      ServicesPlanned(services, IndexOf(services, findings[i].service), setup);
    }
  }

  // ----- it lasts

  /** The baseline of a run that got past it. */
  ghost predicate Planned(run: Run, files: Files) {
    run.baselinePath in files && Readable(files[run.baselinePath]) && NoHostNetwork(run.findings)
  }

  ghost predicate Lasting(s: State) {
    || s.stage == Intake || s.stage == Baseline
    || (s.stage in {ReportOrNext, End} && s.run.stop.Some? && s.run.experiments == [])
    || Planned(s.run, s.files)
  }

  /** A stage behind the baseline's, which it leaves alone. */
  ghost predicate SameBaseline(s: State, t: State) {
    && t.stage != Intake && t.stage != Baseline
    && t.run.baselinePath == s.run.baselinePath && t.run.findings == s.run.findings
    && (s.run.baselinePath in s.files ==>
          s.run.baselinePath in t.files && t.files[s.run.baselinePath] == s.files[s.run.baselinePath])
  }

  lemma BaselineLasts(s: State, setup: Setup, digest: Digest)
    requires FilesValid(s.files) && s.run.experiments == [] && BaselineStage(s, setup, digest).Ok?
    ensures Lasting(BaselineStage(s, setup, digest).value)
  {
    var doc := s.files[s.run.composePath];
    if CompatibilityStop(doc, setup).None? {
      PlanMeansReadable(doc, setup);
      PlanMeansNoHostNetwork(doc, setup);
    }
  }

  lemma BootKeeps(s: State, boot: BootResult)
    requires BootStage(s, boot).Ok?
    ensures SameBaseline(s, BootStage(s, boot).value)
  {
  }

  lemma ProposeKeeps(s: State)
    requires ProposeStage(s).Ok?
    ensures SameBaseline(s, ProposeStage(s).value)
  {
  }

  lemma ExperimentKeeps(s: State, result: EngineResult, digest: Digest)
    requires FilesValid(s.files) && ExperimentStage(s, result, digest).Ok?
    ensures SameBaseline(s, ExperimentStage(s, result, digest).value)
  {
  }

  lemma TargetIsAccepted(number: nat, hash: string)
    ensures UnderAccepted(AcceptedPath(number, hash))
  {
  }

  lemma AcceptedKeeps(run: Run, files: Files, record: Record, readBack: Value, digest: Digest, path: string)
    requires MaterializeAccepted(run, files, record, readBack, digest).Ok? && !UnderAccepted(path) && path in files
    ensures var after := MaterializeAccepted(run, files, record, readBack, digest).value.1;
            path in after && after[path] == files[path]
  {
    TargetIsAccepted(|run.experiments|, record.candidateHash);
  }

  lemma DecideKeeps(s: State, readBack: Value, digest: Digest)
    requires DecideStage(s, readBack, digest).Ok? && !UnderAccepted(s.run.baselinePath)
    ensures SameBaseline(s, DecideStage(s, readBack, digest).value)
  {
    var r := s.record.value;
    if r.verdict == Keep && s.run.baselinePath in s.files {
      AcceptedKeeps(s.run.(experiments := s.run.experiments + [r]), s.files, r, readBack, digest, s.run.baselinePath);
    }
  }

  lemma ReportKeeps(s: State, digest: Digest)
    requires FilesValid(s.files) && ReportStage(s, digest).Ok?
    ensures var t := ReportStage(s, digest).value;
            SameBaseline(s, t) && t.run.experiments == s.run.experiments && t.run.stop == s.run.stop
            && (s.run.stop.Some? ==> t.stage == End)
  {
  }

  /** Every stage past the baseline leaves it alone. */
  lemma StepKeeps(s: State, input: Input, digest: Digest)
    requires FilesValid(s.files) && s.stage !in {Intake, Baseline, End} && Step(s, input, digest).Ok?
    requires !UnderAccepted(s.run.baselinePath)
    ensures SameBaseline(s, Step(s, input, digest).value)
  {
    match s.stage
    case Boot => BootKeeps(s, input.boot);
    case ProposeNext => ProposeKeeps(s);
    case Experiment => ExperimentKeeps(s, input.engine, digest);
    case Decide => DecideKeeps(s, input.readBack, digest);
    case ReportOrNext => ReportKeeps(s, digest);
    case _ =>
  }

  lemma PlannedLasts(s: State, t: State)
    requires Planned(s.run, s.files) && SameBaseline(s, t)
    ensures Lasting(t)
  {
  }

  lemma ReportLasts(s: State, input: Input, digest: Digest)
    requires FilesValid(s.files) && s.stage == ReportOrNext && s.run.stop.Some? && s.run.experiments == []
    requires Step(s, input, digest).Ok?
    ensures Lasting(Step(s, input, digest).value)
  {
    ReportKeeps(s, digest);
  }

  lemma StepLasts(s: State, input: Input, digest: Digest)
    requires Inv(s, digest) && s.stage != End && Lasting(s) && Step(s, input, digest).Ok?
    ensures Lasting(Step(s, input, digest).value)
  {
    if s.stage == Baseline {
      BaselineLasts(s, input.setup, digest);
    } else if s.stage != Intake {
      if Planned(s.run, s.files) {
        StepKeeps(s, input, digest);
        PlannedLasts(s, Step(s, input, digest).value);
      } else {
        ReportLasts(s, input, digest);
      }
    }
  }

  lemma {:induction false} RunLasts(states: seq<State>, inputs: seq<Input>, digest: Digest, i: nat)
    requires GoodDigest(digest) && IsRun(states, inputs, digest) && i < |states|
    ensures Inv(states[i], digest) && Lasting(states[i])
    decreases i
  {
    RunInv(states, inputs, digest, i);
    if i > 0 {
      RunLasts(states, inputs, digest, i - 1);
      StepLasts(states[i - 1], inputs[i - 1], digest);
    }
  }

  // ----- what follows for every run

  lemma OnlyHostNetworkAsks(view: PolicyState, m: Mutation)
    requires Decides(view, Propose(m)) && NoHostNetwork(view.findings)
    ensures m.kind != BridgeNetwork
  {
    ProposalShape(view, m);
    if IsFirstTime(view, m) { FirstTimeIsNew(view, m); }
  }

  /** No run ever experiments with BRIDGE_NETWORK: a document with the finding that asks for it stops at the baseline. */
  lemma BridgeNetworkIsNeverTried(states: seq<State>, inputs: seq<Input>, digest: Digest, i: nat, k: nat)
    requires GoodDigest(digest) && IsRun(states, inputs, digest) && i < |states| && k < |states[i].run.experiments|
    ensures states[i].run.experiments[k].mutation.kind != BridgeNetwork
  {
    RunLasts(states, inputs, digest, i);
    var run := states[i].run;
    assert ProposedAt(run.baselineHash, run.findings, run.baselinePass, run.experiments, k);
    OnlyHostNetworkAsks(StateBefore(run.baselineHash, run.findings, run.baselinePass, run.experiments[..k]),
                        run.experiments[k].mutation);
  }

  lemma MappingsStay(base: Value, doc: Value, experiments: seq<Record>)
    requires Valid(doc) && Derived(base, doc, experiments) && AllMappings(ServicesOf(base))
    ensures AllMappings(ServicesOf(doc))
  {
    ServicesValid(doc);
    var b, c := ServicesOf(base), ServicesOf(doc);
    forall i | 0 <= i < |c| ensures c[i].value.Mapping? {
      GetAt(c, i);
      assert Has(b, c[i].key) && ServiceDerived(c[i].key, Get(b, c[i].key), Get(c, c[i].key), experiments);
    }
  }

  /** In every run, the overlay of every proposal that applies is written. */
  lemma OverlaysAreWritten(states: seq<State>, inputs: seq<Input>, digest: Digest, i: nat)
    requires GoodDigest(digest) && IsRun(states, inputs, digest) && i < |states| && states[i].stage == Experiment
    ensures var s := states[i];
            && s.run.composePath in s.files && s.pending.Some?
            && var current := s.files[s.run.composePath];
               Valid(current) && AllMappings(ServicesOf(current)) &&
               (ApplyMutation(current, s.pending.value).Ok? && HashOf(ApplyMutation(current, s.pending.value).value, digest).Ok? ==>
                  OverlayWritten(current, s.pending.value))
  {
    RunLasts(states, inputs, digest, i);
    var s := states[i];
    var current, m := s.files[s.run.composePath], s.pending.value;
    MappingsStay(s.files[s.run.baselinePath], current, s.run.experiments);
    if ApplyMutation(current, m).Ok? && HashOf(ApplyMutation(current, m).value, digest).Ok? {
      OverlayWrittenIff(s.run, s.files, digest, m);
    }
  }

  // ----- the plan, made again

  lemma NothingPublishes(experiments: seq<Record>, service: string)
    requires forall k :: 0 <= k < |experiments| ==> experiments[k].mutation.kind != BridgeNetwork
    ensures !Touched(experiments, service, "ports") && !Touched(experiments, service, "network_mode")
  {
    forall k, key | 0 <= k < |experiments| && key in {"ports", "network_mode"}
      ensures !TouchedBy(experiments[k], service, key)
    {
    }
  }

  lemma PublishingStays(base: Value, doc: Value, experiments: seq<Record>)
    requires Valid(base) && Valid(doc) && Derived(base, doc, experiments) && AllMappings(ServicesOf(base))
    requires forall k :: 0 <= k < |experiments| ==> experiments[k].mutation.kind != BridgeNetwork
    ensures PortMeaning.DocumentsAlike(base, doc)
  {
    var b, c := ServicesOf(base), ServicesOf(doc);
    ServicesValid(base);
    ServicesValid(doc);
    forall name | Has(b, name) ensures Has(c, name) && PortMeaning.PublishAlike(Get(b, name), Get(c, name)) {
      NothingPublishes(experiments, name);
      assert ServiceDerived(name, Get(b, name), Get(c, name), experiments);
      assert KeyDerived(name, Get(b, name).entries, Get(c, name).entries, experiments, "ports");
      assert KeyDerived(name, Get(b, name).entries, Get(c, name).entries, experiments, "network_mode");
    }
  }

  /** Past the baseline stage, the run is over or its baseline is a document of this kind. */
  ghost predicate BaselineIs(s: State, p: Value -> bool) {
    && s.stage != Intake && s.stage != Baseline
    && ((s.stage in {ReportOrNext, End} && s.run.stop.Some? && s.run.experiments == [])
        || (s.run.baselinePath in s.files && p(s.files[s.run.baselinePath])))
  }

  lemma NextBaseline(s: State, input: Input, t: State, digest: Digest, p: Value -> bool)
    requires Inv(s, digest) && BaselineIs(s, p) && RunStep(s, input, t, digest)
    ensures BaselineIs(t, p)
  {
    if s.run.baselinePath in s.files && p(s.files[s.run.baselinePath]) {
      StepKeeps(s, input, digest);
    } else {
      ReportKeeps(s, digest);
    }
  }

  lemma StepAt(states: seq<State>, inputs: seq<Input>, digest: Digest, i: nat, s: State, t: State)
    requires GoodDigest(digest) && IsRun(states, inputs, digest) && i < |inputs| && s == states[i] && t == states[i + 1]
    ensures Inv(s, digest) && RunStep(s, inputs[i], t, digest)
  {
    RunInv(states, inputs, digest, i);
  }

  lemma BaselineGoesOn(states: seq<State>, inputs: seq<Input>, digest: Digest, i: nat, p: Value -> bool, s: State, t: State)
    requires GoodDigest(digest) && IsRun(states, inputs, digest) && i < |inputs| && s == states[i] && t == states[i + 1]
    requires BaselineIs(s, p)
    ensures BaselineIs(t, p)
  {
    StepAt(states, inputs, digest, i, s, t);
    NextBaseline(s, inputs[i], t, digest, p);
  }

  lemma {:induction false} Lasts(states: seq<State>, k: nat, i: nat, q: State -> bool)
    requires k <= i < |states| && q(states[k])
    requires forall j :: k <= j < i && q(states[j]) ==> q(states[j + 1])
    ensures q(states[i])
    decreases i
  {
    if k < i { Lasts(states, k, i - 1, q); }
  }

  lemma BaselineStays(states: seq<State>, inputs: seq<Input>, digest: Digest, k: nat, i: nat, p: Value -> bool)
    requires GoodDigest(digest) && IsRun(states, inputs, digest) && k <= i < |states| && BaselineIs(states[k], p)
    ensures BaselineIs(states[i], p)
  {
    ghost var q := (s: State) => BaselineIs(s, p);
    forall j | k <= j < i && q(states[j]) ensures q(states[j + 1]) {
      BaselineGoesOn(states, inputs, digest, j, p, states[j], states[j + 1]);
    }
    Lasts(states, k, i, q);
  }

  ghost function PlannedWith(setup: Setup): Value -> bool {
    (doc: Value) => CompatibilityStop(doc, setup).None?
  }

  lemma FirstPlanned(s: State, input: Input, t: State, digest: Digest)
    requires Inv(s, digest) && s.stage == Baseline && RunStep(s, input, t, digest)
    ensures input.BaselineInput? && BaselineIs(t, PlannedWith(input.setup))
  {
  }

  lemma RunPlanned(states: seq<State>, inputs: seq<Input>, digest: Digest, k: nat, i: nat)
    requires GoodDigest(digest) && IsRun(states, inputs, digest) && k < i < |states| && states[k].stage == Baseline
    ensures inputs[k].BaselineInput? && BaselineIs(states[i], PlannedWith(inputs[k].setup))
  {
    RunInv(states, inputs, digest, k);
    FirstPlanned(states[k], inputs[k], states[k + 1], digest);
    BaselineStays(states, inputs, digest, k + 1, i, PlannedWith(inputs[k].setup));
  }

  /** In every run the plan of the current file is that of the baseline: when it is made again it cannot have changed. */
  lemma PlanStays(states: seq<State>, inputs: seq<Input>, digest: Digest, k: nat, i: nat)
    requires GoodDigest(digest) && IsRun(states, inputs, digest)
    requires k < i < |states| && states[k].stage == Baseline && states[i].stage == Experiment
    ensures var s := states[i];
            && inputs[k].BaselineInput? && s.run.baselinePath in s.files && s.run.composePath in s.files
            && var setup := inputs[k].setup;
               var was := PortPlan.PlanOverlay(s.files[s.run.baselinePath], setup.port, setup.addresses);
               var now := PortPlan.PlanOverlay(s.files[s.run.composePath], setup.port, setup.addresses);
               was.Ok? && now.Ok? && PortMeaning.PlansAlike(was.value, now.value)
  {
    RunLasts(states, inputs, digest, i);
    RunPlanned(states, inputs, digest, k, i);
    var s := states[i];
    forall j | 0 <= j < |s.run.experiments| ensures s.run.experiments[j].mutation.kind != BridgeNetwork {
      BridgeNetworkIsNeverTried(states, inputs, digest, i, j);
    }
    PlanIsKept(s, digest, inputs[k].setup);
  }

  lemma PlanIsKept(s: State, digest: Digest, setup: Setup)
    requires Inv(s, digest) && s.stage == Experiment && Planned(s.run, s.files)
    requires CompatibilityStop(s.files[s.run.baselinePath], setup).None?
    requires forall j :: 0 <= j < |s.run.experiments| ==> s.run.experiments[j].mutation.kind != BridgeNetwork
    ensures s.run.composePath in s.files
    ensures var was := PortPlan.PlanOverlay(s.files[s.run.baselinePath], setup.port, setup.addresses);
            var now := PortPlan.PlanOverlay(s.files[s.run.composePath], setup.port, setup.addresses);
            was.Ok? && now.Ok? && PortMeaning.PlansAlike(was.value, now.value)
  {
    var base, current := s.files[s.run.baselinePath], s.files[s.run.composePath];
    PublishingStays(base, current, s.run.experiments);
    PortMeaning.PlanDependsOnPublishing(base, current, setup.port, setup.addresses);
  }
}
