/** The compatibility plan of the current file, to the letter, when written files keep the order of their keys. */
module RunPlans {
  import opened Basics
  import opened ComposeValues
  import opened Overlay
  import opened Mutations
  import opened MutationLaws
  import opened Policy
  import opened Replay
  import opened RunGraph
  import opened RunProofs
  import opened RunTheorems
  import opened RunBaselines
  import PortMeaning
  import PortPlan
  import Ports

  /** A written Compose file reads back as exactly what was written. */
  ghost predicate InOrder(s: State, input: Input) {
    s.stage == Decide && input.FileInput? && s.record.Some? && s.run.composePath in s.files ==>
      var candidate := ApplyMutation(s.files[s.run.composePath], s.record.value.mutation);
      candidate.Ok? ==> input.readBack == candidate.value
  }

  function PortsIn(service: Value): Option<Value> {
    if service.Mapping? && Has(service.entries, "ports") then Some(Get(service.entries, "ports")) else None
  }

  /** The same services with the very same ports. */
  ghost predicate SamePorts(b: seq<Entry>, c: seq<Entry>) {
    forall name :: Has(b, name) == Has(c, name) && (Has(b, name) ==> PortsIn(Get(b, name)) == PortsIn(Get(c, name)))
  }

  lemma MutationKeepsPorts(doc: Value, m: Mutation)
    requires Valid(doc) && ApplyMutation(doc, m).Ok?
    ensures SamePorts(ServicesOf(doc), ServicesOf(ApplyMutation(doc, m).value))
  {
    ApplyMutationFrame(doc, m);
    var c := ApplyMutation(doc, m).value;
    var was, now := Get(doc.entries, "services"), Get(c.entries, "services");
    assert KeyOf(m.kind) != "ports";
    forall name
      ensures Has(was.entries, name) == Has(now.entries, name)
      ensures Has(was.entries, name) ==> PortsIn(Get(was.entries, name)) == PortsIn(Get(now.entries, name))
    {
      assert Keys(now.entries) == Keys(was.entries);
      HasIffKey(was.entries, name);
      HasIffKey(now.entries, name);
    }
  }

  // ----- it lasts

  /** Past the baseline stage the current file has the baseline's ports. */
  ghost predicate PortsStay(s: State) {
    && s.stage != Intake && s.stage != Baseline
    && s.run.baselinePath in s.files && s.run.composePath in s.files
    && SamePorts(ServicesOf(s.files[s.run.baselinePath]), ServicesOf(s.files[s.run.composePath]))
  }

  /** A stage that leaves both files alone. */
  ghost predicate SameFiles(s: State, t: State) {
    && t.stage != Intake && t.stage != Baseline && t.files == s.files
    && t.run.baselinePath == s.run.baselinePath && t.run.composePath == s.run.composePath
  }

  lemma BootFiles(s: State, boot: BootResult)
    requires BootStage(s, boot).Ok?
    ensures SameFiles(s, BootStage(s, boot).value)
  {
  }

  lemma ProposeFiles(s: State)
    requires ProposeStage(s).Ok?
    ensures SameFiles(s, ProposeStage(s).value)
  {
  }

  lemma ExperimentFiles(s: State, result: EngineResult, digest: Digest)
    requires FilesValid(s.files) && ExperimentStage(s, result, digest).Ok?
    ensures SameFiles(s, ExperimentStage(s, result, digest).value)
  {
  }

  lemma RecordFiles(s: State, readBack: Value, digest: Digest)
    requires s.record.Some? && s.record.value.verdict != Keep && DecideStage(s, readBack, digest).Ok?
    ensures SameFiles(s, DecideStage(s, readBack, digest).value)
  {
    RecordedState(s, readBack, digest);
  }

  lemma ReportFiles(s: State, digest: Digest)
    requires FilesValid(s.files) && ReportStage(s, digest).Ok?
    ensures SameFiles(s, ReportStage(s, digest).value)
  {
  }

  /** Every stage but the baseline's and a KEEP leaves both files alone. */
  lemma StepFiles(s: State, input: Input, digest: Digest)
    requires FilesValid(s.files) && s.stage !in {Intake, Baseline, Decide, End} && Step(s, input, digest).Ok?
    ensures SameFiles(s, Step(s, input, digest).value)
  {
    match s.stage
    case Boot => BootFiles(s, input.boot);
    case ProposeNext => ProposeFiles(s);
    case Experiment => ExperimentFiles(s, input.engine, digest);
    case ReportOrNext => ReportFiles(s, digest);
    case _ =>
  }

  lemma KeptFiles(s: State, readBack: Value, digest: Digest, r: Record, path: string)
    requires GoodDigest(digest) && Sound(s, digest) && s.stage == Decide && s.record == Some(r) && r.verdict == Keep
    requires Faithful(s, FileInput(readBack)) && DecideStage(s, readBack, digest).Ok?
    requires path == AcceptedPath(|s.run.experiments| + 1, r.candidateHash)
    ensures var t := DecideStage(s, readBack, digest).value;
            t.stage == ReportOrNext && t.run == KeptRun(s.run, r, path) && t.files == s.files[path := readBack]
            && path != s.run.baselinePath
  {
    ProposalLive(s.run, s.files, digest, r.mutation);
    AcceptedIsWritten(s.run, s.files, digest, r, readBack);
    KeptState(s, readBack, digest, path);
    AcceptedIsUnder(|s.run.experiments| + 1, r.candidateHash);
  }

  lemma SamePortsThrough(a: seq<Entry>, b: seq<Entry>, c: seq<Entry>)
    requires SamePorts(a, b) && SamePorts(b, c)
    ensures SamePorts(a, c)
  {
  }

  lemma PortsAfterKeep(s: State, t: State, path: string, readBack: Value)
    requires PortsStay(s) && t.stage == ReportOrNext && t.files == s.files[path := readBack]
    requires t.run.baselinePath == s.run.baselinePath != path && t.run.composePath == path
    requires SamePorts(ServicesOf(s.files[s.run.composePath]), ServicesOf(readBack))
    ensures PortsStay(t)
  {
    SamePortsThrough(ServicesOf(s.files[s.run.baselinePath]), ServicesOf(s.files[s.run.composePath]), ServicesOf(readBack));
  }

  lemma WrittenPorts(s: State, readBack: Value, r: Record)
    requires s.stage == Decide && s.record == Some(r) && s.run.composePath in s.files && Valid(s.files[s.run.composePath])
    requires ApplyMutation(s.files[s.run.composePath], r.mutation).Ok? && InOrder(s, FileInput(readBack))
    ensures SamePorts(ServicesOf(s.files[s.run.composePath]), ServicesOf(readBack))
  {
    MutationKeepsPorts(s.files[s.run.composePath], r.mutation);
  }

  lemma MadeApplies(s: State, digest: Digest, r: Record)
    requires Sound(s, digest) && s.stage == Decide && s.record == Some(r)
    ensures s.run.composePath in s.files && Valid(s.files[s.run.composePath])
    ensures r.verdict == Keep ==> ApplyMutation(s.files[s.run.composePath], r.mutation).Ok?
  {
  }

  lemma KeepPorts(s: State, readBack: Value, digest: Digest, r: Record)
    requires GoodDigest(digest) && Sound(s, digest) && s.stage == Decide && s.record == Some(r) && r.verdict == Keep
    requires Faithful(s, FileInput(readBack)) && InOrder(s, FileInput(readBack)) && DecideStage(s, readBack, digest).Ok?
    requires PortsStay(s)
    ensures PortsStay(DecideStage(s, readBack, digest).value)
  {
    var path := AcceptedPath(|s.run.experiments| + 1, r.candidateHash);
    KeptFiles(s, readBack, digest, r, path);
    MadeApplies(s, digest, r);
    WrittenPorts(s, readBack, r);
    PortsAfterKeep(s, DecideStage(s, readBack, digest).value, path, readBack);
  }

  lemma DecidePorts(s: State, readBack: Value, digest: Digest)
    requires GoodDigest(digest) && Sound(s, digest) && s.stage == Decide && PortsStay(s)
    requires Faithful(s, FileInput(readBack)) && InOrder(s, FileInput(readBack)) && DecideStage(s, readBack, digest).Ok?
    ensures PortsStay(DecideStage(s, readBack, digest).value)
  {
    if s.record.value.verdict == Keep {
      KeepPorts(s, readBack, digest, s.record.value);
    } else {
      RecordFiles(s, readBack, digest);
    }
  }

  lemma NextPorts(s: State, input: Input, t: State, digest: Digest)
    requires GoodDigest(digest) && Inv(s, digest) && PortsStay(s) && RunStep(s, input, t, digest) && InOrder(s, input)
    ensures PortsStay(t)
  {
    if s.stage == Decide { DecidePorts(s, input.readBack, digest); } else { StepFiles(s, input, digest); }
  }

  lemma FirstPorts(s: State, input: Input, t: State, digest: Digest)
    requires Inv(s, digest) && s.stage == Baseline && RunStep(s, input, t, digest)
    ensures PortsStay(t)
  {
  }

  lemma PortsGoOn(states: seq<State>, inputs: seq<Input>, digest: Digest, i: nat, s: State, t: State)
    requires GoodDigest(digest) && IsRun(states, inputs, digest) && i < |inputs| && s == states[i] && t == states[i + 1]
    requires PortsStay(s) && InOrder(s, inputs[i])
    ensures PortsStay(t)
  {
    StepAt(states, inputs, digest, i, s, t);
    NextPorts(s, inputs[i], t, digest);
  }

  lemma RunPorts(states: seq<State>, inputs: seq<Input>, digest: Digest, k: nat, i: nat)
    requires GoodDigest(digest) && IsRun(states, inputs, digest) && k < i < |states| && states[k].stage == Baseline
    requires forall j :: 0 <= j < |inputs| ==> InOrder(states[j], inputs[j])
    ensures PortsStay(states[i])
  {
    StepAt(states, inputs, digest, k, states[k], states[k + 1]);
    FirstPorts(states[k], inputs[k], states[k + 1], digest);
    ghost var q := (s: State) => PortsStay(s);
    forall j | k + 1 <= j < i && q(states[j]) ensures q(states[j + 1]) {
      PortsGoOn(states, inputs, digest, j, states[j], states[j + 1]);
    }
    Lasts(states, k + 1, i, q);
  }

  // ----- the plan

  lemma OverlaysEqual(base: Value, doc: Value, b: Ports.Binding)
    requires PortPlan.Located(base, b) && PortPlan.Located(doc, b)
    requires SamePorts(ServicesOf(base), ServicesOf(doc))
    ensures PortPlan.OverlayFor(base, b) == PortPlan.OverlayFor(doc, b)
  {
    assert PortsIn(Get(ServicesOf(base), b.service)) == PortsIn(Get(ServicesOf(doc), b.service));
  }

  lemma PlanLocated(doc: Value, port: int, addresses: Ports.Addresses)
    requires PortPlan.PlanOverlay(doc, port, addresses).Ok? && PortPlan.PlanOverlay(doc, port, addresses).value.Some?
    ensures var p := PortPlan.PlanOverlay(doc, port, addresses).value.value;
            PortPlan.Located(doc, p.selected) && p.overlay == PortPlan.OverlayFor(doc, p.selected)
  {
  }

  lemma PlansEqual(base: Value, doc: Value, port: int, addresses: Ports.Addresses)
    requires SamePorts(ServicesOf(base), ServicesOf(doc))
    requires PortPlan.PlanOverlay(base, port, addresses).Ok? && PortPlan.PlanOverlay(doc, port, addresses).Ok?
    requires PortMeaning.PlansAlike(PortPlan.PlanOverlay(base, port, addresses).value, PortPlan.PlanOverlay(doc, port, addresses).value)
    ensures PortPlan.PlanOverlay(doc, port, addresses) == PortPlan.PlanOverlay(base, port, addresses)
  {
    if PortPlan.PlanOverlay(base, port, addresses).value.Some? {
      PlanLocated(base, port, addresses);
      PlanLocated(doc, port, addresses);
      OverlaysEqual(base, doc, PortPlan.PlanOverlay(base, port, addresses).value.value.selected);
    }
  }

  /** In every run whose written files keep the order of their keys, planning for the current file gives the very overlay
      that planning for the baseline gave, its keys in the same order: written out, the two cannot differ. */
  lemma PlanIsTheSame(states: seq<State>, inputs: seq<Input>, digest: Digest, k: nat, i: nat)
    requires GoodDigest(digest) && IsRun(states, inputs, digest)
    requires forall j :: 0 <= j < |inputs| ==> InOrder(states[j], inputs[j])
    requires k < i < |states| && states[k].stage == Baseline && states[i].stage == Experiment
    ensures var s := states[i];
            && inputs[k].BaselineInput? && s.run.baselinePath in s.files && s.run.composePath in s.files
            && var setup := inputs[k].setup;
               var was := PortPlan.PlanOverlay(s.files[s.run.baselinePath], setup.port, setup.addresses);
               was.Ok? && PortPlan.PlanOverlay(s.files[s.run.composePath], setup.port, setup.addresses) == was
  {
    PlanStays(states, inputs, digest, k, i);
    RunPorts(states, inputs, digest, k, i);
    var s, setup := states[i], inputs[k].setup;
    PlansEqual(s.files[s.run.baselinePath], s.files[s.run.composePath], setup.port, setup.addresses);
  }
}
