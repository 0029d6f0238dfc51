/** The run as a state machine: one stage a step, the environment choosing what every boot,
    experiment and file read-back comes to. */
module RunGraph {
  import opened Basics
  import opened ComposeValues
  import opened Overlay
  import opened Risk
  import opened Mutations
  import opened MutationLaws
  import opened Policy
  import opened Replay
  import Ports
  import PortPlan

  const ACCEPTED_DIR := ".repotrial-accepted/"
  const MAX_BOOT_ATTEMPTS := 4
  const MAX_STAGES := 64

  datatype Stage = Intake | Baseline | Boot | Journeys | Observe | ProposeNext | Experiment | Decide | ReportOrNext | End

  /** The files of the workspace that the run reads or writes as Compose documents. */
  type Files = map<string, Value>

  datatype Run = Run(
    composePath: string,
    baselinePath: string,
    baselineHash: string,
    currentHash: string,
    findings: seq<Finding>,
    baselinePass: bool,
    experiments: seq<Record>,
    stop: Option<string>,
    hardened: Option<Value>)

  datatype State = State(
    stage: Stage,
    history: seq<Stage>,
    run: Run,
    files: Files,
    bootAttempt: nat,
    bootPassed: bool,
    bootErrorHash: Option<nat>,
    repeatedErrors: nat,
    journeys: Option<seq<Verdict>>,
    pending: Option<Mutation>,
    record: Option<Record>)

  datatype RecoveryAction = StopRecovery | Wait | Retry | SetEnv

  datatype BootResult =
    | Rejected(reason: string)
    | Booted(results: seq<Verdict>)
    | BootUnsupported
    | BootFailed(fingerprint: nat, action: RecoveryAction)

  /** `Raised`: an exception the stage turns into a stop.  `Aborted`: a STOP record of the engine's own. */
  datatype EngineResult =
    | Raised(reason: string)
    | Aborted(reason: string)
    | Ran(boot: Verdict, outcomes: seq<JourneyOutcome>, tmpChange: bool)

  /** What the compatibility plan is made with. `fault`: what is wrong with the files around it, if anything. */
  datatype Setup = Setup(port: int, addresses: Ports.Addresses, fault: Option<string>)

  datatype Input =
    | NoInput
    | BaselineInput(setup: Setup)
    | BootInput(boot: BootResult)
    | EngineInput(engine: EngineResult)
    | FileInput(readBack: Value)

  /** Exceptions that end the invocation. */
  datatype Crash =
    | StageLimit | WrongInput | NoComposeFile | BadComposeFile | MissingPending
    | DuplicateExperiment | AcceptedHashMismatch | AcceptedReplayMismatch

  // ----- paths of accepted files

  function Digit(n: nat): char {
    '0' + (n % 10) as char
  }

  function Pad4(n: nat): string {
    [Digit(n / 1000), Digit(n / 100), Digit(n / 10), Digit(n)]
  }

  predicate IsHex(c: char) {
    '0' <= c <= '9' || 'a' <= c <= 'f'
  }

  function WithoutPrefix(hash: string): string {
    if |hash| >= 7 && hash[..7] == "sha256:" then hash[7..] else hash
  }

  predicate IsSha256(digest: string) {
    |digest| == 64 && forall i :: 0 <= i < 64 ==> IsHex(digest[i])
  }

  function AcceptedPath(number: nat, hash: string): string {
    var digest := WithoutPrefix(hash);
    ACCEPTED_DIR + "accepted-" + Pad4(number) + "-" + (if |digest| >= 16 then digest[..16] else digest) + ".compose.yaml"
  }

  predicate UnderAccepted(path: string) {
    |path| >= |ACCEPTED_DIR| && path[..|ACCEPTED_DIR|] == ACCEPTED_DIR
  }

  /** `_expected_accepted_compose_path`: looks back for the last kept experiment. */
  function ExpectedPath(experiments: seq<Record>, currentHash: string): Option<string> {
    if experiments == [] then None else
      var n := |experiments|;
      var last := experiments[n - 1];
      if last.verdict != Keep then ExpectedPath(experiments[..n - 1], currentHash)
      else if currentHash != last.candidateHash || !IsSha256(WithoutPrefix(last.candidateHash)) then None
      else Some(AcceptedPath(n, last.candidateHash))
  }

  /** The compose path is not the one the engine would have expected. */
  predicate AcceptedPathError(run: Run) {
    if KeepCount(run.experiments) > 0 then ExpectedPath(run.experiments, run.currentHash) != Some(run.composePath)
    else UnderAccepted(run.composePath)
  }

  // ----- the engine

  function MakeRecord(m: Mutation, parent: string, candidate: string, outcome: Outcome, tmp: bool): Record {
    Record(m.id, parent, candidate, m, outcome.0, outcome.1, tmp)
  }

  ghost predicate FilesValid(files: Files) {
    forall p :: p in files ==> Valid(files[p])
  }

  /** What the engine's own checks say before any sandbox runs, None when there is nothing against it. */
  function EngineObjection(run: Run, parent: string): Option<string> {
    if AcceptedPathError(run) then Some("accepted_compose_materialization_failed")
    else if run.currentHash != parent then Some("parent_hash_mismatch")
    else None
  }

  /** `run_experiment`: the checks first, then what the sandbox showed. */
  ghost function RunExperiment(run: Run, files: Files, m: Mutation, result: EngineResult, digest: Digest): Result<Record, string>
    requires FilesValid(files)
  {
    if run.composePath !in files then Err("ValueError") else
      var base := files[run.composePath];
      match ApplyMutation(base, m)
      case Err(_) => Err("MutationError")
      case Ok(candidate) =>
        ApplyMutationFrame(base, m);
        var parent, hash := HashOf(base, digest), HashOf(candidate, digest);
        if parent.Err? || hash.Err? then Err("ComposeParseError")
        else if result.Raised? then Err(result.reason)
        else Ok(Judged(EngineObjection(run, parent.value), SingleServiceOverlay(base, candidate).Ok?, m, result,
                       parent.value, hash.value))
  }

  /** The record of an experiment that could be prepared. */
  function Judged(objection: Option<string>, overlayWritten: bool, m: Mutation, result: EngineResult,
                  parent: string, hash: string): (r: Record)
    requires !result.Raised?
    ensures r.id == m.id && r.mutation == m && r.parentHash == parent && r.candidateHash == hash
    ensures r.verdict == Keep ==> objection.None? && overlayWritten
  {
    if objection.Some? then MakeRecord(m, parent, hash, (Stop, objection.value), false)
    else if result.Aborted? then MakeRecord(m, parent, hash, (Stop, result.reason), false)
    else if !overlayWritten then MakeRecord(m, parent, hash, (Stop, "overlay_write_failed"), false)
    else MakeRecord(m, parent, hash, ReplayOutcome(result.boot, result.outcomes), result.tmpChange)
  }

  // ----- the stages

  /** `_visit`, then the route. */
  function Visited(s: State, next: Stage, run: Run): Result<State, Crash> {
    if |s.history| >= MAX_STAGES then Err(StageLimit)
    else Ok(s.(stage := next, history := s.history + [s.stage], run := run))
  }

  function Stopping(run: Run, reason: string): Run {
    run.(stop := Some(reason))
  }

  function ReasonOf(e: Ports.PortError): string {
    match e
    case InvalidPort => "invalid_port"
    case InvalidProtocol => "invalid_protocol"
    case PortRange => "port_range"
    case TaggedPort => "tagged_port"
    case HostNotNumeric => "host_not_numeric"
    case HostNetworking => "host_networking"
    case TagUnknown => "unsupported_tag"
    case BadServices => "invalid_services"
    case BadService => "invalid_service"
    case BadPorts => "invalid_ports"
    case BadCompose => "invalid_compose"
    case InvalidContainerPort => "invalid_container_port"
    case AmbiguousBinding => "ambiguous_loopback_binding"
    case PublishedCollision => "published_port_collision"
  }

  /** `_plan_or_verify_compatibility` on a fresh run: why the run cannot go on, if it cannot. */
  function CompatibilityStop(doc: Value, setup: Setup): Option<string> {
    if setup.fault.Some? then Some("compatibility:" + setup.fault.value)
    else
      match PortPlan.PlanOverlay(doc, setup.port, setup.addresses)
      case Err(e) => Some("compatibility:" + ReasonOf(e))
      case Ok(_) => None
  }

  /** A fresh run starts with its Compose file chosen and nothing done. */
  function BaselineStage(s: State, setup: Setup, digest: Digest): Result<State, Crash> {
    if s.run.composePath !in s.files then Err(NoComposeFile) else
      var doc := s.files[s.run.composePath];
      match HashOf(doc, digest)
      case Err(_) => Err(BadComposeFile)
      case Ok(hash) =>
        var stop := CompatibilityStop(doc, setup);
        var run := s.run.(baselinePath := s.run.composePath, baselineHash := hash, currentHash := hash,
                          findings := AnalyzeRisk(doc), stop := if stop.Some? then stop else s.run.stop);
        Visited(s, if run.stop.Some? then ReportOrNext else Boot, run)
  }

  function BootStage(s: State, boot: BootResult): Result<State, Crash> {
    var attempt := s.bootAttempt + 1;
    if attempt > MAX_BOOT_ATTEMPTS then Visited(s, ReportOrNext, Stopping(s.run, "boot_recovery_stopped")) else
      var t := s.(bootAttempt := attempt, bootPassed := boot.Booted?);
      match boot
      case Rejected(reason) => Visited(t, ReportOrNext, Stopping(s.run, reason))
      case BootUnsupported => Visited(t, ReportOrNext, Stopping(s.run, "boot_unsupported"))
      case Booted(results) => Visited(t.(journeys := Some(results)), Journeys, s.run)
      case BootFailed(fingerprint, action) =>
        var repeated := if s.bootErrorHash == Some(fingerprint) then s.repeatedErrors + 1 else 0;
        var u := t.(bootErrorHash := Some(fingerprint), repeatedErrors := repeated);
        if repeated > 2 || action.StopRecovery? || action.Wait?
        then Visited(u, ReportOrNext, Stopping(s.run, "boot_recovery_stopped"))
        else Visited(u, Boot, s.run)
  }

  function JourneysStage(s: State): Result<State, Crash> {
    if s.journeys.None? then Err(MissingPending) else
      var results := s.journeys.value;
      Visited(s.(journeys := None), Observe,
              s.run.(baselinePass := exists i :: 0 <= i < |results| && results[i] == Pass))
  }

  function PolicyView(run: Run): PolicyState {
    PolicyState(run.experiments, run.findings, run.baselinePass, run.currentHash)
  }

  /** The policy's decision; it always has exactly one. */
  ghost function Decision(run: Run): (d: Policy.Decision)
    ensures Decides(PolicyView(run), d)
  {
    DecisionExists(PolicyView(run));
    var d :| Decides(PolicyView(run), d);
    d
  }

  lemma DecisionExists(view: PolicyState)
    ensures exists d :: Decides(view, d)
  {
    if StopReason(view).Some? {
      assert Decides(view, Stopped(StopReason(view).value));
    } else if FollowUp(view).Some? {
      assert Decides(view, Propose(FollowUp(view).value));
    } else if forall c :: !IsCandidate(view, c) {
      assert Decides(view, Stopped("no_remaining_mutations"));
    } else {
      var candidates, c := FirstExists(view);
      FirstDecides(view, candidates, c);
    }
  }

  ghost function ProposeStage(s: State): Result<State, Crash> {
    match Decision(s.run)
    case Stopped(reason) => Visited(s.(pending := None, record := None), ReportOrNext, Stopping(s.run, reason))
    case Propose(m) => Visited(s.(pending := Some(m), record := None), Experiment, s.run)
  }

  ghost function ExperimentStage(s: State, result: EngineResult, digest: Digest): Result<State, Crash>
    requires FilesValid(s.files)
  {
    if s.pending.None? then Err(MissingPending) else
      match RunExperiment(s.run, s.files, s.pending.value, result, digest)
      case Err(reason) => Visited(s.(pending := None, record := None), ReportOrNext, Stopping(s.run, reason))
      case Ok(record) => Visited(s.(record := Some(record)), Decide, s.run)
  }

  /** `_materialize_accepted_compose`: `readBack` is what the written file holds when it is loaded again. */
  function MaterializeAccepted(run: Run, files: Files, record: Record, readBack: Value, digest: Digest): Result<(string, Files), Crash> {
    if run.composePath !in files then Err(NoComposeFile) else
      match ApplyMutation(files[run.composePath], record.mutation)
      case Err(_) => Err(BadComposeFile)
      case Ok(candidate) =>
        if HashOf(candidate, digest) != Ok(record.candidateHash) then Err(AcceptedHashMismatch) else
          var target := AcceptedPath(|run.experiments|, record.candidateHash);
          if target in files then
            if HashOf(files[target], digest) != Ok(record.candidateHash) then Err(AcceptedReplayMismatch)
            else Ok((target, files))
          else if HashOf(readBack, digest) != Ok(record.candidateHash) then Err(AcceptedHashMismatch)
          else Ok((target, files[target := readBack]))
  }

  function DecideStage(s: State, readBack: Value, digest: Digest): Result<State, Crash> {
    if s.record.None? then Err(MissingPending) else
      var record := s.record.value;
      if exists i :: 0 <= i < |s.run.experiments| && s.run.experiments[i].id == record.id then Err(DuplicateExperiment) else
        var run := s.run.(experiments := s.run.experiments + [record]);
        var t := s.(pending := None, record := None);
        match record.verdict
        case Rollback => Visited(t, ReportOrNext, run)
        case Stop => Visited(t, ReportOrNext, Stopping(run, "experiment:" + record.reason))
        case Keep =>
          match MaterializeAccepted(run, s.files, record, readBack, digest)
          case Err(crash) => Err(crash)
          case Ok((path, files)) =>
            Visited(t.(files := files), ReportOrNext, run.(composePath := path, currentHash := record.candidateHash))
  }

  /** The files and records the report is made from. */
  datatype Ends = Ends(baselinePath: string, composePath: string, baselineHash: string, currentHash: string)

  function EndsOf(run: Run): Ends {
    Ends(run.baselinePath, run.composePath, run.baselineHash, run.currentHash)
  }

  /** `_materialize_hardened_overlay`: the whole chain checked, then the override of its two ends. */
  ghost function HardenedOverlay(ends: Ends, experiments: seq<Record>, files: Files, digest: Digest): Option<Value>
    requires FilesValid(files)
  {
    if ends.baselinePath !in files || ends.composePath !in files then None else
      var baseline, current := files[ends.baselinePath], files[ends.composePath];
      if HashOf(baseline, digest) != Ok(ends.baselineHash) || HashOf(current, digest) != Ok(ends.currentHash) then None else
        match ReplayChain(Chain(baseline, ends.baselineHash, 0), experiments, digest)
        case Err(_) => None
        case Ok(chain) =>
          if chain.keeps == 0 || chain.hash != ends.currentHash then None
          else if CanonicalForm(chain.tree) != CanonicalForm(current) then None
          else
            match CumulativeOverlay(baseline, current)
            case Err(_) => None
            case Ok(overlay) => Some(overlay)
  }

  ghost function ReportStage(s: State, digest: Digest): Result<State, Crash>
    requires FilesValid(s.files)
  {
    if s.run.stop.None? then Visited(s, ProposeNext, s.run)
    else Visited(s, End, s.run.(hardened := HardenedOverlay(EndsOf(s.run), s.run.experiments, s.files, digest)))
  }

  ghost function Step(s: State, input: Input, digest: Digest): Result<State, Crash>
    requires FilesValid(s.files) && s.stage != End
  {
    match s.stage
    case Intake => Visited(s, Baseline, s.run)
    case Baseline => if input.BaselineInput? then BaselineStage(s, input.setup, digest) else Err(WrongInput)
    case Boot => if input.BootInput? then BootStage(s, input.boot) else Err(WrongInput)
    case Journeys => JourneysStage(s)
    case Observe => Visited(s, ProposeNext, s.run)
    case ProposeNext => ProposeStage(s)
    case Experiment => if input.EngineInput? then ExperimentStage(s, input.engine, digest) else Err(WrongInput)
    case Decide => if input.FileInput? then DecideStage(s, input.readBack, digest) else Err(WrongInput)
    case ReportOrNext => ReportStage(s, digest)
  }

  // ----- runs

  /** The environment's one obligation: a written Compose file reads back as what was written, up to key order. */
  ghost predicate Faithful(s: State, input: Input) {
    s.stage == Decide && input.FileInput? && s.record.Some? && s.run.composePath in s.files ==>
      var candidate := ApplyMutation(s.files[s.run.composePath], s.record.value.mutation);
      candidate.Ok? ==> Valid(input.readBack) && Meaning(input.readBack) == Meaning(candidate.value)
  }

  ghost predicate IsStart(s: State) {
    && s.stage == Intake && s.history == [] && s.bootAttempt == 0 && s.repeatedErrors == 0
    && s.bootErrorHash.None? && s.journeys.None? && s.pending.None? && s.record.None?
    && s.run.experiments == [] && s.run.hardened.None?
    && FilesValid(s.files)
    && forall p :: p in s.files ==> !UnderAccepted(p)
  }

  /** `states` is a run from its first state, one faithful step after another. */
  ghost predicate IsRun(states: seq<State>, inputs: seq<Input>, digest: Digest) {
    && |states| == |inputs| + 1
    && IsStart(states[0])
    && forall i :: 0 <= i < |inputs| ==>
         && FilesValid(states[i].files) && states[i].stage != End
         && Faithful(states[i], inputs[i])
         && Step(states[i], inputs[i], digest) == Ok(states[i + 1])
  }

  // ----- a candidate to take first always exists

  lemma FirstExists(view: PolicyState) returns (candidates: map<Identity, nat>, c: Identity)
    requires exists c :: IsCandidate(view, c)
    ensures IsCandidateMap(view, candidates) && IsFirst(candidates, c)
  {
    candidates := CandidatesOf(view, |view.findings|);
    var some :| IsCandidate(view, some);
    assert some in candidates;
    c := FirstOf(candidates, candidates.Keys);
  }

  lemma FirstDecides(view: PolicyState, candidates: map<Identity, nat>, c: Identity)
    requires StopReason(view).None? && FollowUp(view).None?
    requires IsCandidateMap(view, candidates) && IsFirst(candidates, c)
    ensures Decides(view, Propose(FirstTime(c)))
  {
    assert IsCandidate(view, c);
  }

  ghost function CandidatesOf(view: PolicyState, n: nat): (r: map<Identity, nat>)
    requires n <= |view.findings|
    ensures CandidatesUpTo(view, n, r)
  {
    if n == 0 then map[] else
      AddFindingStep(view, CandidatesOf(view, n - 1), n - 1);
      AddFinding(view, CandidatesOf(view, n - 1), view.findings[n - 1])
  }

  lemma {:induction false} FirstOf(candidates: map<Identity, nat>, among: set<Identity>) returns (c: Identity)
    requires among <= candidates.Keys && among != {}
    ensures c in among && forall d :: d in among && d != c ==> Before(c, candidates[c], d, candidates[d])
    decreases among
  {
    var d :| d in among;
    var rest := among - {d};
    if rest == {} {
      c := d;
      assert forall e :: e in among ==> e == d || e in rest;
    } else {
      var e := FirstOf(candidates, rest);
      BeforeTotal(d, candidates[d], e, candidates[e]);
      c := if Before(d, candidates[d], e, candidates[e]) then d else e;
      forall x | x in among && x != c
        ensures Before(c, candidates[c], x, candidates[x])
      {
        assert x == d || x in rest;
        if c == d && x != e { BeforeTransitive(d, candidates[d], e, candidates[e], x, candidates[x]); }
      }
    }
  }
}
