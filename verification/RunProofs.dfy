/** What every run keeps, and what that makes of its end. */
module RunProofs {
  import opened Basics
  import opened ComposeValues
  import opened ComposeMerge
  import opened Overlay
  import opened Risk
  import opened Mutations
  import opened MutationLaws
  import opened MutationMeaning
  import opened MutationRisk
  import opened Policy
  import opened PolicyHistory
  import opened Replay
  import opened Hardened
  import opened RunGraph

  /** The shape of a hash, which the engine checks; that it be collision-free is not needed. */
  ghost predicate GoodDigest(digest: Digest) {
    forall c :: IsSha256(WithoutPrefix(digest(c)))
  }

  // ----- a finding means a live service

  ghost predicate LiveService(doc: Value, name: string) {
    && HasServices(doc) && !IsReset(Get(doc.entries, "services"))
    && Has(ServicesOf(doc), name) && Get(ServicesOf(doc), name).Mapping?
    && !IsReset(Get(ServicesOf(doc), name))
  }

  lemma {:induction false} FindingsLive(services: seq<Entry>, f: Finding)
    requires Distinct(Keys(services)) && f in AnalyzeServices(services)
    ensures Has(services, f.service) && Get(services, f.service).Mapping? && !IsReset(Get(services, f.service))
    ensures Flagged(Get(services, f.service).entries, f.kind)
  {
    var n := |services| - 1;
    DistinctInit(services);
    if f in AnalyzeServices(services[..n]) {
      FindingsLive(services[..n], f);
      GetAt(services, IndexOf(services[..n], f.service));
    } else {
      GetAt(services, n);
      assert f in AnalyzeDefinition(services[n].key, services[n].value);
      var r := EffectiveValue(services[n].value);
      FindingFlagged(services[n].key, r.value.entries, KINDS, f);
    }
  }

  lemma {:induction false} FindingFlagged(service: string, entries: seq<Entry>, kinds: seq<Kind>, f: Finding)
    requires f in FindingsAmong(service, entries, kinds)
    ensures f.service == service && Flagged(entries, f.kind)
  {
    if f in FindingsAmong(service, entries, kinds[..|kinds| - 1]) {
      FindingFlagged(service, entries, kinds[..|kinds| - 1], f);
    }
  }

  lemma FindingLive(doc: Value, f: Finding)
    requires Valid(doc) && f in AnalyzeRisk(doc)
    ensures LiveService(doc, f.service) && Flagged(Get(ServicesOf(doc), f.service).entries, f.kind)
  {
    var r := Field(doc.entries, "services");
    assert Has(doc.entries, "services") && r.value == Get(doc.entries, "services");
    ServicesValid(doc);
    FindingsLive(ServicesOf(doc), f);
  }

  // ----- kept mutations stay done

  ghost predicate StaysDone(doc: Value, r: Record) {
    r.verdict == Keep ==>
      CheckRequest(doc, r.mutation).None? && MutateService(ServiceOf(doc, r.mutation).entries, r.mutation.kind) == Err(AlreadySatisfied)
  }

  ghost predicate KeptStayDone(doc: Value, experiments: seq<Record>) {
    forall i :: 0 <= i < |experiments| ==> StaysDone(doc, experiments[i])
  }

  lemma StaysDoneMeaning(doc: Value, other: Value, r: Record)
    requires StaysDone(doc, r) && Valid(doc) && Valid(other) && Meaning(doc) == Meaning(other)
    ensures StaysDone(other, r)
  {
    if r.verdict == Keep {
      RequestMeaning(doc, other, r.mutation);
      ServiceValid(doc, r.mutation);
      ServiceValid(other, r.mutation);
      MutateServiceMeaning(ServiceOf(doc, r.mutation).entries, ServiceOf(other, r.mutation).entries, r.mutation.kind);
    }
  }

  lemma StaysDoneStep(doc: Value, r: Record, m: Mutation)
    requires StaysDone(doc, r) && Valid(doc) && ApplyMutation(doc, m).Ok?
    ensures StaysDone(ApplyMutation(doc, m).value, r)
  {
    var next := ApplyMutation(doc, m).value;
    ApplyMutationFrame(doc, m);
    if r.verdict == Keep {
      RequestStays(doc, m, r.mutation);
      if r.mutation.service == m.service && r.mutation.kind != m.kind {
        KeysOfKinds(r.mutation.kind, m.kind);
        SameKeySameOutcome(ServiceOf(doc, m).entries, ServiceOf(next, m).entries, r.mutation.kind);
      }
    }
  }

  lemma RequestStays(doc: Value, m: Mutation, other: Mutation)
    requires Valid(doc) && ApplyMutation(doc, m).Ok? && CheckRequest(doc, other).None?
    ensures CheckRequest(ApplyMutation(doc, m).value, other).None?
    ensures other.service != m.service ==> ServiceOf(ApplyMutation(doc, m).value, other) == ServiceOf(doc, other)
    ensures other.service == m.service ==>
              ServiceOf(ApplyMutation(doc, m).value, other) == ServiceOf(ApplyMutation(doc, m).value, m)
  {
    ApplyMutationFrame(doc, m);
  }

  lemma KeysOfKinds(a: MutationType, b: MutationType)
    requires a != b
    ensures KeyOf(a) != KeyOf(b)
  {
    assert |KeyOf(a)| == KeyLength(a) && |KeyOf(b)| == KeyLength(b);
  }

  lemma SameKeySameOutcome(a: seq<Entry>, b: seq<Entry>, kind: MutationType)
    requires Has(a, KeyOf(kind)) == Has(b, KeyOf(kind))
    requires Has(a, KeyOf(kind)) ==> Get(a, KeyOf(kind)) == Get(b, KeyOf(kind))
    requires MutateService(a, kind) == Err(AlreadySatisfied)
    ensures MutateService(b, kind) == Err(AlreadySatisfied)
  {
  }

  lemma KeptStayDoneStep(doc: Value, experiments: seq<Record>, r: Record)
    requires KeptStayDone(doc, experiments) && Valid(doc) && ApplyMutation(doc, r.mutation).Ok?
    ensures KeptStayDone(ApplyMutation(doc, r.mutation).value, experiments + [r])
  {
    var next, longer := ApplyMutation(doc, r.mutation).value, experiments + [r];
    forall i | 0 <= i < |longer|
      ensures StaysDone(next, longer[i])
    {
      if i < |experiments| {
        StaysDoneStep(doc, experiments[i], r.mutation);
      } else {
        ApplyMutationFrame(doc, r.mutation);
        ServiceValid(doc, r.mutation);
        MutationSatisfies(ServiceOf(doc, r.mutation).entries, r.mutation.kind);
      }
    }
  }

  // ----- the chain, from the baseline file to the current one

  function StartOf(run: Run, files: Files): Chain
    requires run.baselinePath in files
  {
    Chain(files[run.baselinePath], run.baselineHash, 0)
  }

  ghost predicate FilesKnown(run: Run, files: Files, digest: Digest) {
    && FilesValid(files)
    && run.baselinePath in files && run.composePath in files
    && !UnderAccepted(run.baselinePath)
    && HashOf(files[run.baselinePath], digest) == Ok(run.baselineHash)
    && HashOf(files[run.composePath], digest) == Ok(run.currentHash)
    && run.findings == AnalyzeRisk(files[run.baselinePath])
    && |run.experiments| <= MAX_EXPERIMENTS
    && NumbersFree(files, |run.experiments|)
  }

  /** No accepted file bears a number past those of the experiments. */
  ghost predicate NumbersFree(files: Files, n: nat) {
    forall number, hash :: n < number <= MAX_EXPERIMENTS + 1 ==> AcceptedPath(number, hash) !in files
  }

  /** The recorded experiments replay to the current hash and, up to key order, the current file. */
  ghost predicate ChainHolds(run: Run, files: Files, digest: Digest)
    requires FilesKnown(run, files, digest)
  {
    var chain := ReplayChain(StartOf(run, files), run.experiments, digest);
    && chain.Ok?
    && Valid(chain.value.tree)
    && chain.value.hash == run.currentHash
    && Meaning(chain.value.tree) == Meaning(files[run.composePath])
  }

  ghost predicate PathHolds(run: Run) {
    if KeepCount(run.experiments) == 0 then run.composePath == run.baselinePath
    else ExpectedPath(run.experiments, run.currentHash) == Some(run.composePath)
  }

  ghost predicate DocumentsHold(baseline: Value, current: Value, experiments: seq<Record>) {
    && (experiments != [] ==> HasServices(baseline))
    && (HasServices(baseline) ==> Derived(baseline, current, experiments))
    && KeptStayDone(current, experiments)
    && (KeepCount(experiments) > 0 ==> AllMappings(ServicesOf(baseline)))
  }

  /** What holds of the run and its files between any two stages once there is a baseline. */
  ghost predicate ChainInv(run: Run, files: Files, digest: Digest) {
    && FilesKnown(run, files, digest)
    && FromPolicy(run.baselineHash, run.findings, run.baselinePass, run.experiments)
    && ChainHolds(run, files, digest)
    && PathHolds(run)
    && DocumentsHold(files[run.baselinePath], files[run.composePath], run.experiments)
    && ((exists i :: 0 <= i < |run.experiments| && run.experiments[i].verdict == Stop) ==> run.stop.Some?)
  }

  lemma ViewIsState(run: Run, files: Files, digest: Digest)
    requires ChainInv(run, files, digest)
    ensures PolicyView(run) == StateBefore(run.baselineHash, run.findings, run.baselinePass, run.experiments)
  {
    ReplayCounts(StartOf(run, files), run.experiments, digest);
  }

  /** The baseline stage starts the chain. */
  lemma ChainStarts(s: State, setup: Setup, digest: Digest)
    requires FilesValid(s.files) && s.run.experiments == []
    requires forall p :: p in s.files ==> !UnderAccepted(p)
    requires BaselineStage(s, setup, digest).Ok?
    ensures var t := BaselineStage(s, setup, digest).value;
            ChainInv(t.run, t.files, digest)
  {
    var t := BaselineStage(s, setup, digest).value;
    forall number, hash ensures AcceptedPath(number, hash) !in s.files {
      AcceptedIsUnder(number, hash);
    }
    if HasServices(t.files[t.run.baselinePath]) {
      DerivedRefl(t.files[t.run.baselinePath]);
    }
  }

  lemma AcceptedIsUnder(number: nat, hash: string)
    ensures UnderAccepted(AcceptedPath(number, hash))
  {
    var tail := "accepted-" + Pad4(number) + "-" +
      (if |WithoutPrefix(hash)| >= 16 then WithoutPrefix(hash)[..16] else WithoutPrefix(hash)) + ".compose.yaml";
    assert AcceptedPath(number, hash) == ACCEPTED_DIR + tail;
  }

  /** Where the last digit of the number stands in an accepted path. */
  lemma PathDigit(a: nat, hash: string)
    ensures |AcceptedPath(a, hash)| > |ACCEPTED_DIR| + 12
    ensures AcceptedPath(a, hash)[|ACCEPTED_DIR| + 12] == Digit(a)
  {
    var front := ACCEPTED_DIR + "accepted-";
    assert AcceptedPath(a, hash) == front + (Pad4(a) + AfterNumber(hash));
    FourthAfter(front, Pad4(a), AfterNumber(hash));
  }

  lemma DigitsDiffer(a: nat, b: nat)
    requires a < 10 && b < 10 && Digit(a) == Digit(b)
    ensures a == b
  {
  }

  lemma AcceptedNumbers(a: nat, b: nat, g: string, h: string)
    requires a < 10 && b < 10 && AcceptedPath(a, g) == AcceptedPath(b, h)
    ensures a == b
  {
    PathDigit(a, g);
    PathDigit(b, h);
    DigitsDiffer(a, b);
  }

  function AfterNumber(hash: string): string {
    "-" + (if |WithoutPrefix(hash)| >= 16 then WithoutPrefix(hash)[..16] else WithoutPrefix(hash)) + ".compose.yaml"
  }

  lemma FourthAfter(front: string, number: string, rest: string)
    requires |number| == 4
    ensures (front + (number + rest))[|front| + 3] == number[3]
  {
  }

  // ----- what a record says about the files it was made from

  ghost predicate MadeFrom(r: Record, run: Run, files: Files, digest: Digest)
    requires FilesValid(files)
  {
    && run.composePath in files
    && r.id == r.mutation.id && r.parentHash == run.currentHash
    && ApplyMutation(files[run.composePath], r.mutation).Ok?
    && HashOf(ApplyMutation(files[run.composePath], r.mutation).value, digest) == Ok(r.candidateHash)
    && (r.verdict == Keep ==> OverlayWritten(files[run.composePath], r.mutation))
  }

  ghost predicate OverlayWritten(doc: Value, m: Mutation)
    requires Valid(doc)
  {
    && ApplyMutation(doc, m).Ok?
    && (ApplyMutationFrame(doc, m); SingleServiceOverlay(doc, ApplyMutation(doc, m).value).Ok?)
  }

  /** In no reachable state do the engine's own checks object. */
  lemma EngineNeverObjects(run: Run, files: Files, digest: Digest)
    requires ChainInv(run, files, digest)
    ensures EngineObjection(run, HashOf(files[run.composePath], digest).value).None?
  {
    ReplayCounts(StartOf(run, files), run.experiments, digest);
  }

  /** What any record of the engine says, whatever the reason it was made for. */
  lemma EngineRecord(run: Run, files: Files, m: Mutation, result: EngineResult, digest: Digest)
    requires FilesValid(files) && RunExperiment(run, files, m, result, digest).Ok?
    ensures run.composePath in files && ApplyMutation(files[run.composePath], m).Ok?
    ensures var r := RunExperiment(run, files, m, result, digest).value;
            && r.id == m.id && r.mutation == m
            && HashOf(files[run.composePath], digest) == Ok(r.parentHash)
            && HashOf(ApplyMutation(files[run.composePath], m).value, digest) == Ok(r.candidateHash)
            && (r.verdict == Keep ==> OverlayWritten(files[run.composePath], m))
  {
  }

  lemma EngineMakes(run: Run, files: Files, m: Mutation, result: EngineResult, digest: Digest)
    requires ChainInv(run, files, digest)
    requires RunExperiment(run, files, m, result, digest).Ok?
    ensures MadeFrom(RunExperiment(run, files, m, result, digest).value, run, files, digest)
    ensures RunExperiment(run, files, m, result, digest).value.mutation == m
  {
    EngineRecord(run, files, m, result, digest);
  }

  // ----- deciding

  lemma CountAppend(experiments: seq<Record>, r: Record)
    ensures KeepCount(experiments + [r]) == KeepCount(experiments) + if r.verdict == Keep then 1 else 0
    ensures r.verdict != Keep ==> forall hash :: ExpectedPath(experiments + [r], hash) == ExpectedPath(experiments, hash)
  {
    assert (experiments + [r])[..|experiments|] == experiments;
  }

  /** A proposal is for a service the baseline's findings name. */
  lemma ProposalNamed(run: Run, files: Files, digest: Digest, m: Mutation) returns (f: Finding)
    requires ChainInv(run, files, digest) && Decides(PolicyView(run), Propose(m))
    ensures f in run.findings && f.service == m.service
  {
    ViewIsState(run, files, digest);
    var r := Record(m.id, CurrentHash(run.baselineHash, run.experiments), "", m, Rollback, "", false);
    FromPolicyStep(run.baselineHash, run.findings, run.baselinePass, run.experiments, r);
    ProposalsNameFindings(run.baselineHash, run.findings, run.baselinePass, run.experiments + [r], |run.experiments|);
    var k :| 0 <= k < |run.findings| && run.findings[k].service == m.service;
    f := run.findings[k];
  }

  lemma ProposalLive(run: Run, files: Files, digest: Digest, m: Mutation)
    requires ChainInv(run, files, digest) && Decides(PolicyView(run), Propose(m))
    ensures LiveService(files[run.baselinePath], m.service)
    ensures |run.experiments| < MAX_EXPERIMENTS
  {
    var f := ProposalNamed(run, files, digest, m);
    FindingLive(files[run.baselinePath], f);
    ProposalShape(PolicyView(run), m);
  }

  lemma PolicyExtends(run: Run, files: Files, digest: Digest, r: Record)
    requires ChainInv(run, files, digest) && MadeFrom(r, run, files, digest)
    requires Decides(PolicyView(run), Propose(r.mutation))
    ensures FromPolicy(run.baselineHash, run.findings, run.baselinePass, run.experiments + [r])
  {
    ViewIsState(run, files, digest);
    ReplayCounts(StartOf(run, files), run.experiments, digest);
    FromPolicyStep(run.baselineHash, run.findings, run.baselinePass, run.experiments, r);
  }

  lemma ReplayExtends(run: Run, files: Files, digest: Digest, r: Record)
    requires ChainInv(run, files, digest) && MadeFrom(r, run, files, digest)
    ensures var before := ReplayChain(StartOf(run, files), run.experiments, digest).value;
            var after := ReplayChain(StartOf(run, files), run.experiments + [r], digest);
            && after.Ok? && Valid(after.value.tree)
            && if r.verdict == Keep
               then after.value.hash == r.candidateHash
                    && Meaning(after.value.tree) == Meaning(ApplyMutation(files[run.composePath], r.mutation).value)
               else after.value == before
  {
    ReplayAppend(StartOf(run, files), run.experiments, r, digest);
    RecordReplays(ReplayChain(StartOf(run, files), run.experiments, digest).value, files[run.composePath], r, digest);
  }

  /** Recording an experiment that was not kept. */
  lemma RecordKeepsChain(run: Run, files: Files, digest: Digest, r: Record, run': Run)
    requires ChainInv(run, files, digest) && MadeFrom(r, run, files, digest)
    requires Decides(PolicyView(run), Propose(r.mutation)) && r.verdict != Keep
    requires run' == run.(experiments := run.experiments + [r], stop := run'.stop)
    requires r.verdict == Stop ==> run'.stop.Some?
    requires run.stop.Some? ==> run'.stop.Some?
    ensures ChainInv(run', files, digest)
  {
    ProposalLive(run, files, digest, r.mutation);
    PolicyExtends(run, files, digest, r);
    ReplayExtends(run, files, digest, r);
    CountAppend(run.experiments, r);
    DocumentsKept(files[run.baselinePath], files[run.composePath], run.experiments, r);
    assert FilesKnown(run', files, digest);
    assert ChainHolds(run', files, digest);
    assert PathHolds(run');
    StopRecorded(run.experiments, r, run.stop, run'.stop);
  }

  lemma StopRecorded(experiments: seq<Record>, r: Record, stop: Option<string>, stop': Option<string>)
    requires (exists i :: 0 <= i < |experiments| && experiments[i].verdict == Stop) ==> stop.Some?
    requires stop.Some? ==> stop'.Some?
    requires r.verdict == Stop ==> stop'.Some?
    ensures (exists i :: 0 <= i < |experiments + [r]| && (experiments + [r])[i].verdict == Stop) ==> stop'.Some?
  {
    if i :| 0 <= i < |experiments + [r]| && (experiments + [r])[i].verdict == Stop {
      if i < |experiments| { assert experiments[i].verdict == Stop; }
    }
  }

  lemma DocumentsKept(baseline: Value, current: Value, experiments: seq<Record>, r: Record)
    requires DocumentsHold(baseline, current, experiments) && r.verdict != Keep && HasServices(baseline)
    ensures DocumentsHold(baseline, current, experiments + [r])
  {
    DerivedSkip(baseline, current, experiments, r);
    CountAppend(experiments, r);
    forall i | 0 <= i < |experiments + [r]| ensures StaysDone(current, (experiments + [r])[i]) {
      if i < |experiments| { assert StaysDone(current, experiments[i]); }
    }
  }

  // ----- keeping

  ghost function CandidateOf(run: Run, files: Files, r: Record): Value
    requires run.composePath in files && ApplyMutation(files[run.composePath], r.mutation).Ok?
  {
    ApplyMutation(files[run.composePath], r.mutation).value
  }

  function KeptRun(run: Run, r: Record, path: string): Run {
    run.(experiments := run.experiments + [r], composePath := path, currentHash := r.candidateHash)
  }

  lemma AcceptedIsNew(run: Run, files: Files, digest: Digest, hash: string)
    requires FilesKnown(run, files, digest) && |run.experiments| < MAX_EXPERIMENTS
    ensures AcceptedPath(|run.experiments| + 1, hash) !in files
    ensures AcceptedPath(|run.experiments| + 1, hash) != run.baselinePath
  {
    AcceptedIsUnder(|run.experiments| + 1, hash);
  }

  lemma CandidateHashed(run: Run, files: Files, digest: Digest, r: Record, readBack: Value)
    requires FilesValid(files) && MadeFrom(r, run, files, digest)
    requires Valid(readBack) && Meaning(readBack) == Meaning(CandidateOf(run, files, r))
    ensures Valid(CandidateOf(run, files, r))
    ensures HashOf(readBack, digest) == HashOf(CandidateOf(run, files, r), digest) == Ok(r.candidateHash)
  {
    ApplyMutationFrame(files[run.composePath], r.mutation);
    SameMeaningSameHash(readBack, CandidateOf(run, files, r), digest);
  }

  /** The accepted file is always a new one, and writing it never fails. */
  lemma AcceptedIsWritten(run: Run, files: Files, digest: Digest, r: Record, readBack: Value)
    requires FilesKnown(run, files, digest) && MadeFrom(r, run, files, digest)
    requires |run.experiments| < MAX_EXPERIMENTS
    requires Valid(readBack) && Meaning(readBack) == Meaning(CandidateOf(run, files, r))
    ensures var path := AcceptedPath(|run.experiments| + 1, r.candidateHash);
            MaterializeAccepted(run.(experiments := run.experiments + [r]), files, r, readBack, digest) ==
            Ok((path, files[path := readBack]))
  {
    AcceptedIsNew(run, files, digest, r.candidateHash);
    CandidateHashed(run, files, digest, r, readBack);
  }

  lemma NumbersStayFree(files: Files, n: nat, hash: string, readBack: Value)
    requires n < MAX_EXPERIMENTS && NumbersFree(files, n)
    ensures NumbersFree(files[AcceptedPath(n + 1, hash) := readBack], n + 1)
  {
    forall number, h | n + 1 < number <= MAX_EXPERIMENTS + 1
      ensures AcceptedPath(number, h) !in files[AcceptedPath(n + 1, hash) := readBack]
    {
      if AcceptedPath(number, h) == AcceptedPath(n + 1, hash) {
        AcceptedNumbers(number, n + 1, h, hash);
      }
    }
  }

  lemma FilesStayValid(files: Files, path: string, readBack: Value)
    requires FilesValid(files) && Valid(readBack)
    ensures FilesValid(files[path := readBack])
  {
  }

  lemma FilesKnownKept(run: Run, files: Files, digest: Digest, r: Record, path: string, readBack: Value)
    requires FilesKnown(run, files, digest) && MadeFrom(r, run, files, digest)
    requires |run.experiments| < MAX_EXPERIMENTS
    requires path !in files && NumbersFree(files[path := readBack], |run.experiments| + 1)
    requires Valid(readBack) && Meaning(readBack) == Meaning(CandidateOf(run, files, r))
    ensures FilesKnown(KeptRun(run, r, path), files[path := readBack], digest)
  {
    CandidateHashed(run, files, digest, r, readBack);
    FilesStayValid(files, path, readBack);
  }

  lemma PathKept(run: Run, files: Files, digest: Digest, r: Record)
    requires GoodDigest(digest) && FilesValid(files) && MadeFrom(r, run, files, digest) && r.verdict == Keep
    ensures PathHolds(KeptRun(run, r, AcceptedPath(|run.experiments| + 1, r.candidateHash)))
  {
    CountAppend(run.experiments, r);
    var longer := run.experiments + [r];
    assert longer[|longer| - 1] == r;
    assert IsSha256(WithoutPrefix(r.candidateHash));
  }

  lemma DocumentsKeptToo(baseline: Value, current: Value, experiments: seq<Record>, r: Record, readBack: Value)
    requires DocumentsHold(baseline, current, experiments) && HasServices(baseline) && r.verdict == Keep
    requires Valid(baseline) && Valid(current) && OverlayWritten(current, r.mutation)
    requires Valid(readBack) && Meaning(readBack) == Meaning(ApplyMutation(current, r.mutation).value)
    ensures DocumentsHold(baseline, readBack, experiments + [r])
  {
    ReadBackDerived(baseline, current, experiments, r, readBack);
    ReadBackStaysDone(current, experiments, r, readBack);
    WrittenMeansMappings(current, r.mutation);
    MappingsDerived(baseline, current, experiments);
  }

  lemma ReadBackDerived(baseline: Value, current: Value, experiments: seq<Record>, r: Record, readBack: Value)
    requires Derived(baseline, current, experiments) && Valid(current) && r.verdict == Keep
    requires ApplyMutation(current, r.mutation).Ok?
    requires Valid(readBack) && Meaning(readBack) == Meaning(ApplyMutation(current, r.mutation).value)
    ensures Derived(baseline, readBack, experiments + [r])
  {
    DerivedStep(baseline, current, experiments, r);
    DerivedMeaning(baseline, ApplyMutation(current, r.mutation).value, readBack, experiments + [r]);
  }

  lemma ReadBackStaysDone(current: Value, experiments: seq<Record>, r: Record, readBack: Value)
    requires KeptStayDone(current, experiments) && Valid(current)
    requires ApplyMutation(current, r.mutation).Ok?
    requires Valid(readBack) && Meaning(readBack) == Meaning(ApplyMutation(current, r.mutation).value)
    ensures KeptStayDone(readBack, experiments + [r])
  {
    ApplyMutationFrame(current, r.mutation);
    KeptStayDoneStep(current, experiments, r);
    forall i | 0 <= i < |experiments + [r]| ensures StaysDone(readBack, (experiments + [r])[i]) {
      StaysDoneMeaning(ApplyMutation(current, r.mutation).value, readBack, (experiments + [r])[i]);
    }
  }

  lemma WrittenMeansMappings(doc: Value, m: Mutation)
    requires Valid(doc) && OverlayWritten(doc, m)
    ensures AllMappings(ServicesOf(doc))
  {
    ApplyMutationFrame(doc, m);
  }

  lemma MappingsDerived(base: Value, doc: Value, experiments: seq<Record>)
    requires Valid(base) && Derived(base, doc, experiments) && AllMappings(ServicesOf(doc))
    ensures AllMappings(ServicesOf(base))
  {
    var b, c := ServicesOf(base), ServicesOf(doc);
    ServicesValid(base);
    forall i | 0 <= i < |b| ensures b[i].value.Mapping? {
      GetAt(b, i);
      assert ServiceDerived(b[i].key, Get(b, b[i].key), Get(c, b[i].key), experiments);
      assert c[IndexOf(c, b[i].key)].value.Mapping?;
    }
  }

  lemma KeepReady(run: Run, files: Files, digest: Digest, r: Record, path: string, readBack: Value)
    requires GoodDigest(digest) && ChainInv(run, files, digest) && MadeFrom(r, run, files, digest)
    requires Decides(PolicyView(run), Propose(r.mutation)) && r.verdict == Keep
    requires path == AcceptedPath(|run.experiments| + 1, r.candidateHash)
    ensures |run.experiments| < MAX_EXPERIMENTS && HasServices(files[run.baselinePath])
    ensures path !in files && path != run.baselinePath && PathHolds(KeptRun(run, r, path))
    ensures NumbersFree(files[path := readBack], |run.experiments| + 1)
  {
    ProposalLive(run, files, digest, r.mutation);
    AcceptedIsNew(run, files, digest, r.candidateHash);
    NumbersStayFree(files, |run.experiments|, r.candidateHash, readBack);
    PathKept(run, files, digest, r);
  }

  /** Keeping an experiment. */
  lemma KeepKeepsChain(run: Run, files: Files, digest: Digest, r: Record, path: string, readBack: Value)
    requires GoodDigest(digest) && ChainInv(run, files, digest) && MadeFrom(r, run, files, digest)
    requires Decides(PolicyView(run), Propose(r.mutation)) && r.verdict == Keep
    requires path == AcceptedPath(|run.experiments| + 1, r.candidateHash)
    requires Valid(readBack) && Meaning(readBack) == Meaning(CandidateOf(run, files, r))
    ensures ChainInv(KeptRun(run, r, path), files[path := readBack], digest)
  {
    KeepReady(run, files, digest, r, path, readBack);
    KeepKeepsRest(run, files, digest, r, path, readBack);
  }

  lemma KeepKeepsRest(run: Run, files: Files, digest: Digest, r: Record, path: string, readBack: Value)
    requires ChainInv(run, files, digest) && MadeFrom(r, run, files, digest)
    requires Decides(PolicyView(run), Propose(r.mutation)) && r.verdict == Keep
    requires |run.experiments| < MAX_EXPERIMENTS && HasServices(files[run.baselinePath])
    requires path !in files && path != run.baselinePath && PathHolds(KeptRun(run, r, path))
    requires NumbersFree(files[path := readBack], |run.experiments| + 1)
    requires Valid(readBack) && Meaning(readBack) == Meaning(CandidateOf(run, files, r))
    ensures ChainInv(KeptRun(run, r, path), files[path := readBack], digest)
  {
    var run', files' := KeptRun(run, r, path), files[path := readBack];
    FilesKnownKept(run, files, digest, r, path, readBack);
    PolicyExtends(run, files, digest, r);
    ReplayExtends(run, files, digest, r);
    DocumentsKeptToo(files[run.baselinePath], files[run.composePath], run.experiments, r, readBack);
    assert StartOf(run', files') == StartOf(run, files);
    StopRecorded(run.experiments, r, run.stop, run'.stop);
  }
}
