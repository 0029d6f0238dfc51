/** When the policy proposes what, told from the history of experiments and the findings alone. */
module PolicyLaws {
  import opened Basics
  import opened Risk
  import opened Mutations
  import opened Policy
  import opened PolicyHistory

  predicate Tried(experiments: seq<Record>, kind: MutationType, service: string) {
    exists r :: r in experiments && r.mutation.kind == kind && r.mutation.service == service
  }

  /** The finding asks for a mutation that its service has not had yet. */
  predicate Open(experiments: seq<Record>, f: Finding) {
    AnswerTo(f.kind).Some? && !Tried(experiments, AnswerTo(f.kind).value, f.service)
  }

  predicate AnyOpen(state: PolicyState) {
    exists f :: f in state.findings && Open(state.experiments, f)
  }

  predicate AnyStop(experiments: seq<Record>) {
    exists r :: r in experiments && r.verdict == Stop
  }

  predicate ThreeRollbacks(experiments: seq<Record>) {
    var n := |experiments|;
    && n >= 3
    && experiments[n - 3].verdict == Rollback && experiments[n - 2].verdict == Rollback && experiments[n - 1].verdict == Rollback
  }

  lemma TriedIs(experiments: seq<Record>, kind: MutationType, service: string)
    ensures Tried(experiments, kind, service) <==> Attempted(experiments, kind, service)
  {
    if Attempted(experiments, kind, service) {
      var i :| 0 <= i < |experiments| && experiments[i].mutation.kind == kind && experiments[i].mutation.service == service;
      assert experiments[i] in experiments;
    }
  }

  lemma OpenIsCandidate(state: PolicyState, f: Finding)
    requires f in state.findings && Open(state.experiments, f)
    ensures IsCandidate(state, (AnswerTo(f.kind).value, f.service))
  {
    TriedIs(state.experiments, AnswerTo(f.kind).value, f.service);
    var i :| 0 <= i < |state.findings| && state.findings[i] == f;
    assert Asks(state, state.findings[i], (AnswerTo(f.kind).value, f.service));
  }

  lemma CandidateIsOpen(state: PolicyState, c: Identity)
    requires IsCandidate(state, c)
    ensures AnyOpen(state)
  {
    var i :| 0 <= i < |state.findings| && Asks(state, state.findings[i], c);
    TriedIs(state.experiments, c.0, c.1);
    assert Open(state.experiments, state.findings[i]);
  }

  lemma OpenIffCandidate(state: PolicyState)
    ensures AnyOpen(state) <==> exists c :: IsCandidate(state, c)
  {
    if AnyOpen(state) {
      var f :| f in state.findings && Open(state.experiments, f);
      OpenIsCandidate(state, f);
    }
    if c :| IsCandidate(state, c) { CandidateIsOpen(state, c); }
  }

  lemma StopsAre(experiments: seq<Record>)
    ensures AnyStop(experiments) <==> exists i :: 0 <= i < |experiments| && experiments[i].verdict == Stop
  {
    if i :| 0 <= i < |experiments| && experiments[i].verdict == Stop { assert experiments[i] in experiments; }
  }

  lemma FailuresAre(experiments: seq<Record>)
    ensures ConsecutiveFailures(experiments) <==> ThreeRollbacks(experiments)
  {
  }

  /** Why the policy stops, the first reason that applies. */
  ghost predicate StopsFor(state: PolicyState, reason: string) {
    var h := state.experiments;
    if AnyStop(h) then reason == "experiment_stopped"
    else if !state.baselinePass then reason == "insufficient_coverage"
    else if |h| >= 8 then reason == "experiment_budget_exhausted"
    else if ThreeRollbacks(h) then reason == "consecutive_failures"
    else reason == "no_remaining_mutations" && FollowUp(state).None? && !AnyOpen(state)
  }

  /** A proposal follows every history that has stopped nowhere, is shorter than eight and does not end in three
      roll-backs, as long as something remains to try; otherwise the policy stops, for the first of these reasons. */
  lemma DecisionLaw(state: PolicyState, d: Decision)
    requires Decides(state, d)
    ensures d.Propose? <==> !AnyStop(state.experiments) && state.baselinePass && |state.experiments| < 8 &&
                            !ThreeRollbacks(state.experiments) && (FollowUp(state).Some? || AnyOpen(state))
    ensures d.Stopped? ==> StopsFor(state, d.reason)
  {
    StopsAre(state.experiments);
    FailuresAre(state.experiments);
    OpenIffCandidate(state);
  }

  // ----- which candidate comes first

  const URGENCY := [DropPrivileged, RemoveDockerSocket, SetNonRoot, DropAllCaps, SetReadOnly, BridgeNetwork]

  predicate MoreUrgent(a: MutationType, b: MutationType) {
    exists i, j :: 0 <= i < j < |URGENCY| && URGENCY[i] == a && URGENCY[j] == b
  }

  lemma UrgencyIsPriority(a: MutationType, b: MutationType)
    requires a != AddTmpfs && b != AddTmpfs
    ensures MoreUrgent(a, b) <==> Priority(a) < Priority(b)
  {
    var u := URGENCY;
    assert u[0] == DropPrivileged && u[1] == RemoveDockerSocket && u[2] == SetNonRoot;
    assert u[3] == DropAllCaps && u[4] == SetReadOnly && u[5] == BridgeNetwork && |u| == 6;
    assert forall i :: 0 <= i < 6 ==> Priority(u[i]) == i;
    assert u[Priority(a)] == a && u[Priority(b)] == b;
  }

  lemma AnswersAreNotTmpfs(kind: Kind)
    ensures AnswerTo(kind) != Some(AddTmpfs)
  {
  }

  /** Some finding that is open on `service` for `kind` is at least this severe. */
  predicate AsSevere(state: PolicyState, kind: MutationType, service: string, severity: nat) {
    exists g :: g in state.findings && g.service == service && AnswerTo(g.kind) == Some(kind) && Severity(g.kind) >= severity
  }

  /** Besides the follow-ups, a proposal is for the most urgent type that is open; of that type, for a service with a
      finding as severe as any; of those, for the first by name. */
  lemma MostUrgentFirst(state: PolicyState, m: Mutation, f: Finding)
    requires Decides(state, Propose(m)) && FollowUp(state).None?
    requires f in state.findings && Open(state.experiments, f)
    ensures var kind := AnswerTo(f.kind).value;
            && !MoreUrgent(kind, m.kind)
            && (kind == m.kind ==> AsSevere(state, kind, m.service, Severity(f.kind)))
            && (kind == m.kind && !AsSevere(state, kind, m.service, Severity(f.kind) + 1) && f.service != m.service ==>
                  Less(m.service, f.service))
  {
    var candidates, c :| IsCandidateMap(state, candidates) && IsFirst(candidates, c) && m == FirstTime(c);
    var k := (AnswerTo(f.kind).value, f.service);
    OpenIsCandidate(state, f);
    assert k in candidates && IsCandidate(state, c);
    ProposalShape(state, m);
    FirstTimeIsNew(state, m);
    AnswersAreNotTmpfs(f.kind);
    UrgencyIsPriority(k.0, m.kind);
    WorstIsSevere(state, c, candidates[c]);
    WorstCovers(state, f, k, candidates[k]);
    if c != k { assert Before(c, candidates[c], k, candidates[k]); }
    if k.0 == m.kind { SeverityCarries(state, c, candidates[c], Severity(f.kind)); }
  }

  lemma SeverityCarries(state: PolicyState, c: Identity, severity: nat, least: nat)
    requires AsSevere(state, c.0, c.1, severity) && severity >= least
    ensures AsSevere(state, c.0, c.1, least)
    ensures !AsSevere(state, c.0, c.1, least + 1) ==> severity == least
  {
  }

  lemma WorstIsSevere(state: PolicyState, c: Identity, severity: nat)
    requires WorstOf(state, |state.findings|, c, severity)
    ensures AsSevere(state, c.0, c.1, severity)
  {
    var i :| 0 <= i < |state.findings| && Asks(state, state.findings[i], c) && Severity(state.findings[i].kind) == severity;
    assert state.findings[i] in state.findings;
  }

  lemma WorstCovers(state: PolicyState, f: Finding, c: Identity, severity: nat)
    requires f in state.findings && Open(state.experiments, f) && c == (AnswerTo(f.kind).value, f.service)
    requires WorstOf(state, |state.findings|, c, severity)
    ensures severity >= Severity(f.kind)
  {
    TriedIs(state.experiments, c.0, c.1);
    var i :| 0 <= i < |state.findings| && state.findings[i] == f;
    assert Asks(state, state.findings[i], c);
  }

  // ----- when the follow-ups come

  /** The last experiment was SET_READ_ONLY, was rolled back, and changed /tmp. */
  predicate BrokeTmp(experiments: seq<Record>) {
    var n := |experiments|;
    n > 0 && experiments[n - 1].mutation.kind == SetReadOnly && experiments[n - 1].verdict == Rollback && experiments[n - 1].tmpChange
  }

  lemma RollbackStays(baseline: string, findings: seq<Finding>, pass: bool, experiments: seq<Record>)
    requires FromPolicy(baseline, findings, pass, experiments) && experiments != []
    ensures var last := experiments[|experiments| - 1];
            CurrentHash(baseline, experiments) == if last.verdict == Keep then last.candidateHash else last.parentHash
  {
    assert ProposedAt(baseline, findings, pass, experiments, |experiments| - 1);
  }

  lemma TmpfsWhen(baseline: string, findings: seq<Finding>, pass: bool, experiments: seq<Record>)
    requires FromPolicy(baseline, findings, pass, experiments)
    ensures CanAddTmpfs(StateBefore(baseline, findings, pass, experiments)) <==>
            BrokeTmp(experiments) && !Tried(experiments, AddTmpfs, experiments[|experiments| - 1].mutation.service)
  {
    if experiments != [] {
      RollbackStays(baseline, findings, pass, experiments);
      TriedIs(experiments, AddTmpfs, experiments[|experiments| - 1].mutation.service);
    }
  }

  /** In every history the policy asks for ADD_TMPFS exactly when the last experiment made a service read-only, was
      rolled back and changed /tmp, and the service has not had ADD_TMPFS before. */
  lemma TmpfsProposedIff(baseline: string, findings: seq<Finding>, pass: bool, experiments: seq<Record>, m: Mutation)
    requires FromPolicy(baseline, findings, pass, experiments)
    requires Decides(StateBefore(baseline, findings, pass, experiments), Propose(m))
    ensures m.kind == AddTmpfs <==>
            BrokeTmp(experiments) && !Tried(experiments, AddTmpfs, experiments[|experiments| - 1].mutation.service)
    ensures m.kind == AddTmpfs ==> m.service == experiments[|experiments| - 1].mutation.service
  {
    var state := StateBefore(baseline, findings, pass, experiments);
    TmpfsWhen(baseline, findings, pass, experiments);
    ProposalShape(state, m);
    if IsFirstTime(state, m) { FirstTimeIsNew(state, m); }
  }

  /** The experiment before the last broke /tmp, and the last gave the same service a /tmp and was kept. */
  predicate GotTmp(experiments: seq<Record>) {
    var n := |experiments|;
    && n >= 2 && BrokeTmp(experiments[..n - 1])
    && experiments[n - 1].mutation.kind == AddTmpfs && experiments[n - 1].verdict == Keep
    && experiments[n - 1].candidateHash != experiments[n - 1].parentHash
  }

  /** ADD_TMPFS right behind a read-only that broke /tmp is for its service. */
  lemma TmpfsFollows(baseline: string, findings: seq<Finding>, pass: bool, experiments: seq<Record>)
    requires FromPolicy(baseline, findings, pass, experiments)
    requires |experiments| > 0 && experiments[|experiments| - 1].mutation.kind == AddTmpfs
    ensures var n := |experiments|;
            n >= 2 && BrokeTmp(experiments[..n - 1]) && experiments[n - 1].mutation.service == experiments[n - 2].mutation.service
            && experiments[n - 1].parentHash == experiments[n - 2].parentHash
            && experiments[n - 1].mutation.id == TmpfsId(experiments[n - 1].mutation.service)
  {
    var n := |experiments| - 1;
    var before, m := experiments[..n], experiments[n].mutation;
    assert ProposedAt(baseline, findings, pass, experiments, n);
    PrefixFromPolicy(baseline, findings, pass, experiments, n);
    TmpfsProposedIff(baseline, findings, pass, before, m);
    RollbackStays(baseline, findings, pass, before);
    ProposalShape(StateBefore(baseline, findings, pass, before), m);
  }

  /** Only one SET_READ_ONLY of a service stands before its ADD_TMPFS. */
  lemma OneReadOnlyBefore(baseline: string, findings: seq<Finding>, pass: bool, experiments: seq<Record>, i: nat, j: nat, k: nat)
    requires FromPolicy(baseline, findings, pass, experiments) && i < j < k < |experiments|
    requires ReadOnlyOn(experiments[i], experiments[k].mutation.service) && experiments[k].mutation.kind == AddTmpfs
    ensures !ReadOnlyOn(experiments[j], experiments[k].mutation.service)
  {
    if ReadOnlyOn(experiments[j], experiments[k].mutation.service) {
      RepeatIsRetry(baseline, findings, pass, experiments, i, j);
      RetryOf(baseline, findings, pass, experiments, j);
      TmpfsOnce(baseline, findings, pass, experiments, j - 1, k);
    }
  }

  lemma RetryWhen(baseline: string, findings: seq<Finding>, pass: bool, experiments: seq<Record>)
    requires FromPolicy(baseline, findings, pass, experiments)
    ensures CanRetryReadOnly(StateBefore(baseline, findings, pass, experiments)) <==> GotTmp(experiments)
  {
    var n := |experiments|;
    if n >= 2 && experiments[n - 1].mutation.kind == AddTmpfs {
      TmpfsFollows(baseline, findings, pass, experiments);
      RollbackStays(baseline, findings, pass, experiments);
      var service := experiments[n - 1].mutation.service;
      forall i | 0 <= i < n && experiments[i].mutation.kind == SetReadOnly && experiments[i].mutation.service == service
        ensures i == n - 2
      {
        assert ReadOnlyOn(experiments[i], service) && ReadOnlyOn(experiments[n - 2], service);
        if i < n - 2 { OneReadOnlyBefore(baseline, findings, pass, experiments, i, n - 2, n - 1); }
      }
    }
  }

  /** In every history the policy asks for SET_READ_ONLY on a service that has had it exactly when ADD_TMPFS has just
      been kept there, right after the read-only that broke /tmp. It only must not hash like its parent. */
  lemma RetryProposedIff(baseline: string, findings: seq<Finding>, pass: bool, experiments: seq<Record>, m: Mutation)
    requires FromPolicy(baseline, findings, pass, experiments)
    requires Decides(StateBefore(baseline, findings, pass, experiments), Propose(m))
    ensures m.kind == SetReadOnly && Tried(experiments, SetReadOnly, m.service) <==> GotTmp(experiments)
    ensures GotTmp(experiments) ==> m.service == experiments[|experiments| - 1].mutation.service
  {
    var state := StateBefore(baseline, findings, pass, experiments);
    RetryWhen(baseline, findings, pass, experiments);
    ProposalShape(state, m);
    TriedIs(experiments, SetReadOnly, m.service);
    if IsFirstTime(state, m) { FirstTimeIsNew(state, m); }
    if CanRetryReadOnly(state) { RetryService(state, Mutation(RetryId(m.service), SetReadOnly, m.service, true)); }
  }
}
