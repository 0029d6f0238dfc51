/** The bounded hardening policy: which mutation comes next, and what an experiment decides. */
module Policy {
  import opened Basics
  import opened Risk
  import opened Mutations

  datatype Verdict = Pass | Fail | Unsupported
  datatype ExperimentVerdict = Keep | Rollback | Stop

  /** `tmpChange`: an observation of the experiment shows the mutated service changing a file under /tmp. */
  datatype Record = Record(
    id: string, parentHash: string, candidateHash: string, mutation: Mutation,
    verdict: ExperimentVerdict, reason: string, tmpChange: bool)

  /** What the policy reads of a run. */
  datatype PolicyState = PolicyState(
    experiments: seq<Record>, findings: seq<Finding>, baselinePass: bool, currentHash: string)

  datatype Decision = Propose(mutation: Mutation) | Stopped(reason: string)

  const MAX_EXPERIMENTS := 8
  const MAX_CONSECUTIVE := 3

  function TypeName(kind: MutationType): string {
    match kind
    case SetNonRoot => "set_non_root"
    case DropAllCaps => "drop_all_caps"
    case SetReadOnly => "set_read_only"
    case AddTmpfs => "add_tmpfs"
    case DropPrivileged => "drop_privileged"
    case RemoveDockerSocket => "remove_docker_socket"
    case BridgeNetwork => "bridge_network"
  }

  /** The mutation that answers a kind of finding. */
  function AnswerTo(kind: Kind): Option<MutationType> {
    match kind
    case Privileged => Some(DropPrivileged)
    case DockerSocketRw => Some(RemoveDockerSocket)
    case RootUser => Some(SetNonRoot)
    case RootUserPossible => Some(DropAllCaps)
    case CapAdd => Some(DropAllCaps)
    case WritableRootfs => Some(SetReadOnly)
    case HostNetwork => Some(BridgeNetwork)
    case _ => None
  }

  function Priority(kind: MutationType): nat {
    match kind
    case DropPrivileged => 0
    case RemoveDockerSocket => 1
    case SetNonRoot => 2
    case DropAllCaps => 3
    case SetReadOnly => 4
    case BridgeNetwork => 5
    case AddTmpfs => 6
  }

  // ----- follow-ups to a read-only file system that broke /tmp

  const TMPFS_SUFFIX := ":after-read-only"
  const RETRY_SUFFIX := ":after-tmpfs"

  function PlainId(kind: MutationType, service: string): string {
    "policy:" + TypeName(kind) + ":" + service
  }

  function TmpfsId(service: string): string {
    PlainId(AddTmpfs, service) + TMPFS_SUFFIX
  }

  function RetryId(service: string): string {
    PlainId(SetReadOnly, service) + RETRY_SUFFIX
  }

  predicate Attempted(experiments: seq<Record>, kind: MutationType, service: string) {
    exists i :: 0 <= i < |experiments| && experiments[i].mutation.kind == kind && experiments[i].mutation.service == service
  }

  predicate CanAddTmpfs(state: PolicyState) {
    state.experiments != [] &&
    var latest := state.experiments[|state.experiments| - 1];
    && latest.mutation.kind == SetReadOnly
    && latest.verdict == Rollback
    && latest.tmpChange
    && state.currentHash == latest.parentHash
    && !Attempted(state.experiments, AddTmpfs, latest.mutation.service)
  }

  predicate CanRetryReadOnly(state: PolicyState) {
    var n := |state.experiments|;
    n >= 2 &&
    var readOnly, tmpfs := state.experiments[n - 2], state.experiments[n - 1];
    var service := readOnly.mutation.service;
    && readOnly.mutation.kind == SetReadOnly
    && readOnly.verdict == Rollback
    && tmpfs.mutation.kind == AddTmpfs
    && tmpfs.mutation.service == service
    && tmpfs.verdict == Keep
    && tmpfs.mutation.id == TmpfsId(service)
    && tmpfs.parentHash == readOnly.parentHash
    && state.currentHash == tmpfs.candidateHash
    && readOnly.tmpChange
    && !exists i :: 0 <= i < n && state.experiments[i].mutation.kind == SetReadOnly &&
         state.experiments[i].mutation.service == service && state.experiments[i].parentHash == tmpfs.candidateHash
  }

  function FollowUp(state: PolicyState): Option<Mutation> {
    if CanAddTmpfs(state) then
      var service := state.experiments[|state.experiments| - 1].mutation.service;
      Some(Mutation(TmpfsId(service), AddTmpfs, service, true))
    else if CanRetryReadOnly(state) then
      var service := state.experiments[|state.experiments| - 1].mutation.service;
      Some(Mutation(RetryId(service), SetReadOnly, service, true))
    else None
  }

  // ----- the first-time candidates

  type Identity = (MutationType, string)

  /** A finding nobody has acted on yet asks for this identity. */
  predicate Asks(state: PolicyState, f: Finding, identity: Identity) {
    && AnswerTo(f.kind) == Some(identity.0)
    && f.service == identity.1
    && !Attempted(state.experiments, identity.0, identity.1)
  }

  ghost predicate AskedBy(state: PolicyState, n: nat, identity: Identity)
    requires n <= |state.findings|
  {
    exists i :: 0 <= i < n && Asks(state, state.findings[i], identity)
  }

  /** The worst severity among the first findings that ask for it. */
  ghost predicate WorstOf(state: PolicyState, n: nat, identity: Identity, severity: nat)
    requires n <= |state.findings|
  {
    && (exists i :: 0 <= i < n && Asks(state, state.findings[i], identity) && Severity(state.findings[i].kind) == severity)
    && forall i :: 0 <= i < n && Asks(state, state.findings[i], identity) ==> Severity(state.findings[i].kind) <= severity
  }

  ghost predicate IsCandidate(state: PolicyState, identity: Identity) {
    AskedBy(state, |state.findings|, identity)
  }

  /** The order candidates are taken in: by type, then worst first, then by service name. */
  predicate Before(a: Identity, sa: nat, b: Identity, sb: nat) {
    || Priority(a.0) < Priority(b.0)
    || (Priority(a.0) == Priority(b.0) && sa > sb)
    || (Priority(a.0) == Priority(b.0) && sa == sb && Less(a.1, b.1))
  }

  /** The source's dict after the first `n` findings: the candidates, each with its severity. */
  ghost predicate CandidatesUpTo(state: PolicyState, n: nat, candidates: map<Identity, nat>)
    requires n <= |state.findings|
  {
    && (forall c :: c in candidates <==> AskedBy(state, n, c))
    && forall c :: c in candidates ==> WorstOf(state, n, c, candidates[c])
  }

  ghost predicate IsCandidateMap(state: PolicyState, candidates: map<Identity, nat>) {
    CandidatesUpTo(state, |state.findings|, candidates)
  }

  /** What one more finding does to the dict. */
  function AddFinding(state: PolicyState, candidates: map<Identity, nat>, f: Finding): map<Identity, nat> {
    if AnswerTo(f.kind).None? then candidates else
      var c := (AnswerTo(f.kind).value, f.service);
      if !Asks(state, f, c) then candidates
      else candidates[c := if c in candidates && candidates[c] > Severity(f.kind) then candidates[c] else Severity(f.kind)]
  }

  lemma AddFindingStep(state: PolicyState, candidates: map<Identity, nat>, n: nat)
    requires n < |state.findings| && CandidatesUpTo(state, n, candidates)
    ensures CandidatesUpTo(state, n + 1, AddFinding(state, candidates, state.findings[n]))
  {
    var f, after := state.findings[n], AddFinding(state, candidates, state.findings[n]);
    forall c
      ensures AskedBy(state, n + 1, c) <==> AskedBy(state, n, c) || Asks(state, f, c)
      ensures c in after <==> AskedBy(state, n + 1, c)
      ensures c in after ==> WorstOf(state, n + 1, c, after[c])
    {
      AskedStep(state, n, c);
      if c in after {
        if c in candidates { WorstStep(state, n, c, candidates[c]); } else { FirstWorst(state, n, c); }
      }
    }
  }

  lemma AskedStep(state: PolicyState, n: nat, c: Identity)
    requires n < |state.findings|
    ensures AskedBy(state, n + 1, c) <==> AskedBy(state, n, c) || Asks(state, state.findings[n], c)
  {
    if AskedBy(state, n, c) {
      var i :| 0 <= i < n && Asks(state, state.findings[i], c);
      assert 0 <= i < n + 1;
    }
  }

  lemma WorstStep(state: PolicyState, n: nat, c: Identity, severity: nat)
    requires n < |state.findings| && WorstOf(state, n, c, severity)
    ensures var s := Severity(state.findings[n].kind);
            WorstOf(state, n + 1, c, if Asks(state, state.findings[n], c) && s > severity then s else severity)
  {
    var i :| 0 <= i < n && Asks(state, state.findings[i], c) && Severity(state.findings[i].kind) == severity;
    assert 0 <= i < n + 1;
  }

  lemma FirstWorst(state: PolicyState, n: nat, c: Identity)
    requires n < |state.findings| && !AskedBy(state, n, c)
    ensures Asks(state, state.findings[n], c) ==> WorstOf(state, n + 1, c, Severity(state.findings[n].kind))
  {
  }

  ghost predicate IsFirst(candidates: map<Identity, nat>, c: Identity) {
    c in candidates && forall d :: d in candidates && d != c ==> Before(c, candidates[c], d, candidates[d])
  }

  method CollectCandidates(state: PolicyState) returns (candidates: map<Identity, nat>)
    ensures IsCandidateMap(state, candidates)
  {
    candidates := map[];
    for i := 0 to |state.findings|
      invariant CandidatesUpTo(state, i, candidates)
    {
      var f := state.findings[i];
      ghost var before := candidates;
      var answer := AnswerTo(f.kind);
      if answer.Some? {
        var identity := (answer.value, f.service);
        if !Attempted(state.experiments, identity.0, identity.1) {
          var severity := Severity(f.kind);
          if identity in candidates && candidates[identity] > severity { severity := candidates[identity]; }
          candidates := candidates[identity := severity];
        }
      }
      assert candidates == AddFinding(state, before, f);
      AddFindingStep(state, before, i);
    }
  }

  /** `min` over the dict's items. */
  method TakeFirst(candidates: map<Identity, nat>) returns (c: Identity)
    requires candidates != map[]
    ensures IsFirst(candidates, c)
  {
    var rest := candidates.Keys;
    c :| c in rest;
    rest := rest - {c};
    while rest != {}
      invariant rest <= candidates.Keys && c in candidates && c !in rest
      invariant forall d :: d in candidates && d !in rest && d != c ==> Before(c, candidates[c], d, candidates[d])
      decreases rest
    {
      var d :| d in rest;
      rest := rest - {d};
      BeforeTotal(c, candidates[c], d, candidates[d]);
      if Before(d, candidates[d], c, candidates[c]) {
        forall e | e in candidates && e !in rest && e != d
          ensures Before(d, candidates[d], e, candidates[e])
        {
          if e != c { BeforeTransitive(d, candidates[d], c, candidates[c], e, candidates[e]); }
        }
        c := d;
      }
    }
  }

  lemma PriorityInjective(a: MutationType, b: MutationType)
    requires Priority(a) == Priority(b)
    ensures a == b
  {
  }

  lemma BeforeTotal(a: Identity, sa: nat, b: Identity, sb: nat)
    ensures Before(a, sa, b, sb) || Before(b, sb, a, sa) || a == b
  {
    LessTotal(a.1, b.1);
    if Priority(a.0) == Priority(b.0) { PriorityInjective(a.0, b.0); }
  }

  lemma BeforeTransitive(a: Identity, sa: nat, b: Identity, sb: nat, c: Identity, sc: nat)
    requires Before(a, sa, b, sb) && Before(b, sb, c, sc)
    ensures Before(a, sa, c, sc)
  {
    if Less(a.1, b.1) && Less(b.1, c.1) { LessTransitive(a.1, b.1, c.1); }
  }

  lemma BeforeAsymmetric(a: Identity, sa: nat, b: Identity, sb: nat)
    requires Before(a, sa, b, sb)
    ensures !Before(b, sb, a, sa)
  {
    LessIrreflexive(a.1);
    if Less(b.1, a.1) && Less(a.1, b.1) { LessTransitive(a.1, b.1, a.1); }
  }

  lemma FirstUnique(candidates: map<Identity, nat>, c: Identity, d: Identity)
    requires IsFirst(candidates, c) && IsFirst(candidates, d)
    ensures c == d
  {
    if c != d {
      BeforeAsymmetric(c, candidates[c], d, candidates[d]);
    }
  }

  lemma CandidateMapUnique(state: PolicyState, a: map<Identity, nat>, b: map<Identity, nat>)
    requires IsCandidateMap(state, a) && IsCandidateMap(state, b)
    ensures a == b
  {
    forall c | c in a ensures c in b && a[c] == b[c] {
      assert IsCandidate(state, c);
      assert WorstOf(state, |state.findings|, c, a[c]) && WorstOf(state, |state.findings|, c, b[c]);
    }
    assert forall c :: c in b ==> IsCandidate(state, c);
  }

  // ----- the proposal

  predicate ConsecutiveFailures(experiments: seq<Record>) {
    var n := |experiments|;
    n >= MAX_CONSECUTIVE && forall i :: n - MAX_CONSECUTIVE <= i < n ==> experiments[i].verdict == Rollback
  }

  /** The reasons to stop before looking for a mutation, in order. */
  function StopReason(state: PolicyState): Option<string> {
    if exists i :: 0 <= i < |state.experiments| && state.experiments[i].verdict == Stop then Some("experiment_stopped")
    else if !state.baselinePass then Some("insufficient_coverage")
    else if |state.experiments| >= MAX_EXPERIMENTS then Some("experiment_budget_exhausted")
    else if ConsecutiveFailures(state.experiments) then Some("consecutive_failures")
    else None
  }

  function FirstTime(identity: Identity): Mutation {
    Mutation(PlainId(identity.0, identity.1), identity.0, identity.1, true)
  }

  /** The only decision the policy can take in a state. */
  ghost predicate Decides(state: PolicyState, d: Decision) {
    if StopReason(state).Some? then d == Stopped(StopReason(state).value)
    else if FollowUp(state).Some? then d == Propose(FollowUp(state).value)
    else if forall c :: !IsCandidate(state, c) then d == Stopped("no_remaining_mutations")
    else d.Propose? && exists candidates, c ::
        IsCandidateMap(state, candidates) && IsFirst(candidates, c) && d.mutation == FirstTime(c)
  }

  method ProposeMutation(state: PolicyState) returns (d: Decision)
    ensures Decides(state, d)
  {
    var stop := StopReason(state);
    if stop.Some? { return Stopped(stop.value); }
    var followUp := FollowUp(state);
    if followUp.Some? { return Propose(followUp.value); }
    var candidates := CollectCandidates(state);
    if candidates == map[] {
      forall c ensures !IsCandidate(state, c) { assert c !in candidates; }
      return Stopped("no_remaining_mutations");
    }
    var c := TakeFirst(candidates);
    assert IsCandidate(state, c);
    d := Propose(FirstTime(c));
  }

  /** The policy is deterministic. */
  lemma DecidesUnique(state: PolicyState, d: Decision, e: Decision)
    requires Decides(state, d) && Decides(state, e)
    ensures d == e
  {
    if StopReason(state).None? && FollowUp(state).None? && exists c :: IsCandidate(state, c) {
      var m, c :| IsCandidateMap(state, m) && IsFirst(m, c) && d.mutation == FirstTime(c);
      var n, k :| IsCandidateMap(state, n) && IsFirst(n, k) && e.mutation == FirstTime(k);
      CandidateMapUnique(state, m, n);
      FirstUnique(m, c, k);
    }
  }

  // ----- the verdict of an experiment

  type Outcome = (ExperimentVerdict, string)

  datatype JourneyOutcome = JourneyOutcome(token: string, verdict: Verdict)

  /** `decide_candidate`: None while the replay has to go on. */
  function DecideCandidate(boot: Verdict, journeys: seq<JourneyOutcome>, expected: nat): Option<Outcome> {
    if boot == Fail then Some((Rollback, "boot_regression"))
    else if boot == Verdict.Unsupported then Some((Stop, "boot_unsupported"))
    else if expected == 0 then Some((Stop, "insufficient_coverage"))
    else
      var bad := FirstBad(journeys);
      if bad < |journeys| then
        if journeys[bad].verdict == Fail then Some((Rollback, "journey_regression:" + journeys[bad].token))
        else Some((Stop, "journey_unsupported:" + journeys[bad].token))
      else if |journeys| == expected then Some((Keep, "baseline_pass_journeys_preserved"))
      else None
  }

  function FirstBad(journeys: seq<JourneyOutcome>): (r: nat)
    ensures r <= |journeys|
    ensures forall i :: 0 <= i < r ==> journeys[i].verdict == Pass
    ensures r < |journeys| ==> journeys[r].verdict != Pass
  {
    if journeys == [] then 0
    else if journeys[0].verdict != Pass then 0
    else 1 + FirstBad(journeys[1..])
  }

  /** What replaying the expected journeys, in order, comes to. */
  function ReplayOutcome(boot: Verdict, results: seq<JourneyOutcome>): Outcome {
    if boot == Fail then (Rollback, "boot_regression")
    else if boot == Verdict.Unsupported then (Stop, "boot_unsupported")
    else if results == [] then (Stop, "insufficient_coverage")
    else if FirstBad(results) == |results| then (Keep, "baseline_pass_journeys_preserved")
    else
      var bad := results[FirstBad(results)];
      if bad.verdict == Fail then (Rollback, "journey_regression:" + bad.token)
      else (Stop, "journey_unsupported:" + bad.token)
  }

  /** The replay loop: `results` are what the expected journeys would give, in order. It always ends in
      a decision; KEEP means every one of them passed, and nothing past the first failure is replayed. */
  method ReplayJourneys(boot: Verdict, results: seq<JourneyOutcome>) returns (outcome: Outcome, replayed: seq<JourneyOutcome>)
    ensures outcome == ReplayOutcome(boot, results)
    ensures outcome.0 == Keep <==> boot == Pass && results != [] && forall i :: 0 <= i < |results| ==> results[i].verdict == Pass
    ensures replayed == if boot != Pass then [] else if FirstBad(results) < |results| then results[..FirstBad(results) + 1]
                        else results
  {
    replayed := [];
    var decision := DecideCandidate(boot, [], |results|);
    if decision.Some? { return decision.value, []; }
    for i := 0 to |results|
      invariant replayed == results[..i]
      invariant i <= FirstBad(results)
      invariant i < |results| || i == 0
      invariant boot == Pass && |results| > 0
    {
      replayed := replayed + [results[i]];
      assert replayed == results[..i + 1];
      FirstBadPrefix(results, i + 1);
      decision := DecideCandidate(Pass, replayed, |results|);
      if decision.Some? {
        return decision.value, replayed;
      }
    }
    assert false;
  }

  lemma {:induction false} FirstBadPrefix(results: seq<JourneyOutcome>, n: nat)
    requires n <= |results|
    ensures FirstBad(results[..n]) == if FirstBad(results) < n then FirstBad(results) else n
  {
    var a, b := FirstBad(results[..n]), FirstBad(results);
    if a < n { assert results[..n][a] == results[a]; }
    if b < n { assert results[..n][b] == results[b]; }
  }
}
