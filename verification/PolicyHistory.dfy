/** What every sequence of policy proposals keeps, whatever the verdicts. */
module PolicyHistory {
  import opened Basics
  import opened Risk
  import opened Mutations
  import opened Policy

  /** The configuration the next experiment starts from. */
  function CurrentHash(baseline: string, experiments: seq<Record>): string {
    if experiments == [] then baseline else
      var last := experiments[|experiments| - 1];
      if last.verdict == Keep then last.candidateHash else CurrentHash(baseline, experiments[..|experiments| - 1])
  }

  function StateBefore(baseline: string, findings: seq<Finding>, pass: bool, experiments: seq<Record>): PolicyState {
    PolicyState(experiments, findings, pass, CurrentHash(baseline, experiments))
  }

  ghost predicate ProposedAt(baseline: string, findings: seq<Finding>, pass: bool, experiments: seq<Record>, i: nat)
    requires i < |experiments|
  {
    && experiments[i].id == experiments[i].mutation.id
    && experiments[i].parentHash == CurrentHash(baseline, experiments[..i])
    && Decides(StateBefore(baseline, findings, pass, experiments[..i]), Propose(experiments[i].mutation))
  }

  /** Each record's mutation was the policy's proposal after the records before it. */
  ghost predicate FromPolicy(baseline: string, findings: seq<Finding>, pass: bool, experiments: seq<Record>) {
    forall i :: 0 <= i < |experiments| ==> ProposedAt(baseline, findings, pass, experiments, i)
  }

  lemma FromPolicyStep(baseline: string, findings: seq<Finding>, pass: bool, experiments: seq<Record>, r: Record)
    requires FromPolicy(baseline, findings, pass, experiments)
    requires r.id == r.mutation.id && r.parentHash == CurrentHash(baseline, experiments)
    requires Decides(StateBefore(baseline, findings, pass, experiments), Propose(r.mutation))
    ensures FromPolicy(baseline, findings, pass, experiments + [r])
  {
    forall i | 0 <= i <= |experiments|
      ensures ProposedAt(baseline, findings, pass, experiments + [r], i)
    {
      assert (experiments + [r])[..i] == experiments[..i];
      assert experiments[..|experiments|] == experiments;
      if i < |experiments| { assert ProposedAt(baseline, findings, pass, experiments, i); }
    }
  }

  // ----- the three shapes a proposal has

  ghost predicate IsFirstTime(state: PolicyState, m: Mutation) {
    m == FirstTime((m.kind, m.service)) && IsCandidate(state, (m.kind, m.service))
  }

  lemma ProposalShape(state: PolicyState, m: Mutation)
    requires Decides(state, Propose(m))
    ensures StopReason(state).None?
    ensures || (CanAddTmpfs(state) && m == Mutation(TmpfsId(m.service), AddTmpfs, m.service, true)
                && m.service == state.experiments[|state.experiments| - 1].mutation.service)
            || (CanRetryReadOnly(state) && m == Mutation(RetryId(m.service), SetReadOnly, m.service, true)
                && m.service == state.experiments[|state.experiments| - 1].mutation.service)
            || (IsFirstTime(state, m) && FollowUp(state).None?)
  {
    if FollowUp(state).None? {
      var candidates, c :| IsCandidateMap(state, candidates) && IsFirst(candidates, c) && m == FirstTime(c);
      assert IsCandidate(state, c) && c == (m.kind, m.service);
    }
  }

  lemma FirstTimeIsNew(state: PolicyState, m: Mutation)
    requires IsFirstTime(state, m)
    ensures !Attempted(state.experiments, m.kind, m.service) && m.kind != AddTmpfs
    ensures exists i :: 0 <= i < |state.findings| && state.findings[i].service == m.service &&
              AnswerTo(state.findings[i].kind) == Some(m.kind)
  {
  }

  /** Every proposal is for a service some finding names. */
  lemma {:induction false} ProposalsNameFindings(
    baseline: string, findings: seq<Finding>, pass: bool, experiments: seq<Record>, i: nat)
    requires FromPolicy(baseline, findings, pass, experiments) && i < |experiments|
    ensures exists k :: 0 <= k < |findings| && findings[k].service == experiments[i].mutation.service
    decreases i
  {
    assert ProposedAt(baseline, findings, pass, experiments, i);
    var state := StateBefore(baseline, findings, pass, experiments[..i]);
    ProposalShape(state, experiments[i].mutation);
    if FollowUp(state).Some? {
      ProposalsNameFindings(baseline, findings, pass, experiments, i - 1);
    } else {
      FirstTimeIsNew(state, experiments[i].mutation);
    }
  }

  /** A pair (type, service) comes back only as the retry of SET_READ_ONLY. */
  lemma RepeatIsRetry(baseline: string, findings: seq<Finding>, pass: bool, experiments: seq<Record>, i: nat, j: nat)
    requires FromPolicy(baseline, findings, pass, experiments) && i < j < |experiments|
    requires experiments[i].mutation.kind == experiments[j].mutation.kind
    requires experiments[i].mutation.service == experiments[j].mutation.service
    ensures experiments[j].mutation == Mutation(RetryId(experiments[j].mutation.service), SetReadOnly, experiments[j].mutation.service, true)
    ensures CanRetryReadOnly(StateBefore(baseline, findings, pass, experiments[..j]))
  {
    assert ProposedAt(baseline, findings, pass, experiments, j);
    var state := StateBefore(baseline, findings, pass, experiments[..j]);
    ProposalShape(state, experiments[j].mutation);
    assert state.experiments[i] == experiments[i];
    assert Attempted(state.experiments, experiments[j].mutation.kind, experiments[j].mutation.service);
    if IsFirstTime(state, experiments[j].mutation) {
      FirstTimeIsNew(state, experiments[j].mutation);
    }
  }

  lemma RetryFollowsTmpfs(baseline: string, findings: seq<Finding>, pass: bool, experiments: seq<Record>, j: nat)
    requires FromPolicy(baseline, findings, pass, experiments) && j <= |experiments|
    requires CanRetryReadOnly(StateBefore(baseline, findings, pass, experiments[..j]))
    ensures j >= 2 && experiments[j - 1].mutation.kind == AddTmpfs
    ensures experiments[j - 1].mutation.service == experiments[j - 2].mutation.service
  {
    assert experiments[..j][j - 1] == experiments[j - 1] && experiments[..j][j - 2] == experiments[j - 2];
  }

  /** Of three SET_READ_ONLY on one service two would be retries, and their ADD_TMPFS one too many. */
  lemma ReadOnlyAtMostTwice(
    baseline: string, findings: seq<Finding>, pass: bool, experiments: seq<Record>, i: nat, j: nat, k: nat, service: string)
    requires FromPolicy(baseline, findings, pass, experiments) && i < j < k < |experiments|
    requires experiments[i].mutation.service == experiments[j].mutation.service == service
    requires experiments[i].mutation.kind == experiments[j].mutation.kind == SetReadOnly
    ensures !(experiments[k].mutation.kind == SetReadOnly && experiments[k].mutation.service == service)
  {
    RepeatIsRetry(baseline, findings, pass, experiments, i, j);
    RetryOf(baseline, findings, pass, experiments, j);
    if experiments[k].mutation.kind == SetReadOnly && experiments[k].mutation.service == service {
      RepeatIsRetry(baseline, findings, pass, experiments, i, k);
      RetryOf(baseline, findings, pass, experiments, k);
      TmpfsOnce(baseline, findings, pass, experiments, j - 1, k - 1);
    }
  }

  /** A retry right after ADD_TMPFS is for that service. */
  lemma RetryOf(baseline: string, findings: seq<Finding>, pass: bool, experiments: seq<Record>, j: nat)
    requires FromPolicy(baseline, findings, pass, experiments) && j < |experiments|
    requires CanRetryReadOnly(StateBefore(baseline, findings, pass, experiments[..j]))
    requires experiments[j].mutation.kind == SetReadOnly
    ensures j >= 1 && experiments[j - 1].mutation.kind == AddTmpfs
    ensures experiments[j - 1].mutation.service == experiments[j].mutation.service
  {
    assert ProposedAt(baseline, findings, pass, experiments, j);
    var state := StateBefore(baseline, findings, pass, experiments[..j]);
    ProposalShape(state, experiments[j].mutation);
    RetryFollowsTmpfs(baseline, findings, pass, experiments, j);
    assert state.experiments[j - 1] == experiments[j - 1];
  }

  /** ADD_TMPFS is tried at most once per service. */
  lemma TmpfsOnce(baseline: string, findings: seq<Finding>, pass: bool, experiments: seq<Record>, i: nat, j: nat)
    requires FromPolicy(baseline, findings, pass, experiments) && i <= j < |experiments|
    requires experiments[i].mutation.service == experiments[j].mutation.service
    requires experiments[i].mutation.kind == experiments[j].mutation.kind == AddTmpfs
    ensures i == j
  {
    if i < j {
      RepeatIsRetry(baseline, findings, pass, experiments, i, j);
    }
  }

  // ----- identifiers

  lemma FirstColon(a: string, s: string, b: string, t: string)
    requires ':' !in a && ':' !in b
    requires a + ":" + s == b + ":" + t
    ensures a == b && s == t
  {
    var x, y := a + ":" + s, b + ":" + t;
    NoColonBefore(a, s);
    NoColonBefore(b, t);
    assert x[|a|] == ':' && y[|b|] == ':';
    assert |a| == |b|;
    assert a == x[..|a|] && b == y[..|b|];
    assert s == x[|a| + 1..] && t == y[|b| + 1..];
  }

  lemma NoColonBefore(a: string, s: string)
    requires ':' !in a
    ensures forall i :: 0 <= i < |a| ==> (a + ":" + s)[i] != ':'
  {
  }

  lemma TypeNames(a: MutationType, b: MutationType)
    ensures ':' !in TypeName(a)
    ensures TypeName(a) == TypeName(b) ==> a == b
  {
    assert |TypeName(a)| == match a
      case SetNonRoot => 12 case DropAllCaps => 13 case SetReadOnly => 13 case AddTmpfs => 9
      case DropPrivileged => 15 case RemoveDockerSocket => 20 case BridgeNetwork => 14;
    assert |TypeName(b)| == match b
      case SetNonRoot => 12 case DropAllCaps => 13 case SetReadOnly => 13 case AddTmpfs => 9
      case DropPrivileged => 15 case RemoveDockerSocket => 20 case BridgeNetwork => 14;
    assert "drop_all_caps"[0] == 'd' && "set_read_only"[0] == 's';
  }

  lemma PlainIdInjective(a: MutationType, s: string, b: MutationType, t: string)
    requires PlainId(a, s) == PlainId(b, t)
    ensures a == b && s == t
  {
    TypeNames(a, b);
    TypeNames(b, a);
    var x, y := TypeName(a) + ":" + s, TypeName(b) + ":" + t;
    assert PlainId(a, s) == "policy:" + x && PlainId(b, t) == "policy:" + y;
    assert x == ("policy:" + x)[7..] && y == ("policy:" + y)[7..];
    FirstColon(TypeName(a), s, TypeName(b), t);
  }

  lemma SuffixedId(kind: MutationType, s: string, suffix: string)
    ensures PlainId(kind, s) + suffix == PlainId(kind, s + suffix)
  {
  }

  lemma SuffixInjective(s: string, t: string, suffix: string)
    requires s + suffix == t + suffix
    ensures s == t
  {
    assert |s| == |t|;
    assert s == (s + suffix)[..|s|] && t == (t + suffix)[..|t|];
  }

  /** The service part of a proposal's id. */
  lemma ProposalId(state: PolicyState, m: Mutation)
    requires Decides(state, Propose(m))
    ensures m.id == if m.kind == AddTmpfs then PlainId(AddTmpfs, m.service + TMPFS_SUFFIX)
                    else if CanRetryReadOnly(state) && FollowUp(state).Some? then PlainId(SetReadOnly, m.service + RETRY_SUFFIX)
                    else PlainId(m.kind, m.service)
  {
    ProposalShape(state, m);
    SuffixedId(AddTmpfs, m.service, TMPFS_SUFFIX);
    SuffixedId(SetReadOnly, m.service, RETRY_SUFFIX);
    if IsFirstTime(state, m) { FirstTimeIsNew(state, m); }
  }

  predicate IsRetry(m: Mutation) {
    m.kind == SetReadOnly && m.id == PlainId(SetReadOnly, m.service + RETRY_SUFFIX)
  }

  /** One of the two is the retry for a service, the other the first try for the service whose name
      is that one's with `:after-tmpfs` behind it. */
  predicate NamesCollide(a: Mutation, b: Mutation) {
    && a.kind == SetReadOnly && b.kind == SetReadOnly
    && (|| (IsRetry(a) && !IsRetry(b) && b.service == a.service + RETRY_SUFFIX)
        || (IsRetry(b) && !IsRetry(a) && a.service == b.service + RETRY_SUFFIX))
  }

  lemma IdShape(state: PolicyState, m: Mutation)
    requires Decides(state, Propose(m))
    ensures m.id == PlainId(m.kind, m.service + if m.kind == AddTmpfs then TMPFS_SUFFIX
                                                else if IsRetry(m) then RETRY_SUFFIX else "")
    ensures IsRetry(m) <==> CanRetryReadOnly(state) && FollowUp(state) == Some(m)
  {
    ProposalId(state, m);
    ProposalShape(state, m);
    assert m.service + "" == m.service;
    assert |PlainId(SetReadOnly, m.service + RETRY_SUFFIX)| == |PlainId(SetReadOnly, m.service)| + |RETRY_SUFFIX|;
  }

  /** In every history, the next proposal's id is already recorded iff two service names collide. */
  lemma RecordedIffNamesCollide(
    baseline: string, findings: seq<Finding>, pass: bool, experiments: seq<Record>, m: Mutation)
    requires FromPolicy(baseline, findings, pass, experiments)
    requires Decides(StateBefore(baseline, findings, pass, experiments), Propose(m))
    ensures (exists i :: 0 <= i < |experiments| && experiments[i].id == m.id) <==>
            (exists i :: 0 <= i < |experiments| && NamesCollide(experiments[i].mutation, m))
  {
    forall i | 0 <= i < |experiments|
      ensures experiments[i].id == m.id <==> NamesCollide(experiments[i].mutation, m)
    {
      SameIdIffNamesCollide(baseline, findings, pass, experiments, m, i);
    }
  }

  function SuffixOf(m: Mutation): string {
    if m.kind == AddTmpfs then TMPFS_SUFFIX else if IsRetry(m) then RETRY_SUFFIX else ""
  }

  /** The id is its type's and the service's, with what tells a follow-up. */
  predicate Shaped(m: Mutation) {
    m.id == PlainId(m.kind, m.service + SuffixOf(m))
  }

  lemma ShapedProposal(state: PolicyState, m: Mutation)
    requires Decides(state, Propose(m))
    ensures Shaped(m)
  {
    IdShape(state, m);
  }

  lemma SameIdCollides(a: Mutation, b: Mutation)
    requires Shaped(a) && Shaped(b) && a.id == b.id
    requires !(a.kind == b.kind && a.service == b.service && SuffixOf(a) == SuffixOf(b))
    ensures NamesCollide(a, b)
  {
    PlainIdInjective(a.kind, a.service + SuffixOf(a), b.kind, b.service + SuffixOf(b));
    if SuffixOf(a) == SuffixOf(b) {
      SuffixInjective(a.service, b.service, SuffixOf(a));
      assert false;
    }
    assert a.service + "" == a.service && b.service + "" == b.service;
  }

  lemma CollidingSameId(a: Mutation, b: Mutation)
    requires Shaped(a) && Shaped(b) && NamesCollide(a, b)
    ensures a.id == b.id
  {
    assert a.service + "" == a.service && b.service + "" == b.service;
  }

  lemma SameIdIffNamesCollide(
    baseline: string, findings: seq<Finding>, pass: bool, experiments: seq<Record>, m: Mutation, i: nat)
    requires FromPolicy(baseline, findings, pass, experiments) && i < |experiments|
    requires Decides(StateBefore(baseline, findings, pass, experiments), Propose(m))
    ensures experiments[i].id == m.id <==> NamesCollide(experiments[i].mutation, m)
  {
    var r := experiments[i].mutation;
    assert ProposedAt(baseline, findings, pass, experiments, i);
    ShapedProposal(StateBefore(baseline, findings, pass, experiments[..i]), r);
    ShapedProposal(StateBefore(baseline, findings, pass, experiments), m);
    if NamesCollide(r, m) { CollidingSameId(r, m); }
    if r.id == m.id {
      if r.kind == m.kind && r.service == m.service {
        RepeatIsNotSame(baseline, findings, pass, experiments, m, i);
      }
      SameIdCollides(r, m);
    }
  }

  /** Same type, same service, same shape: the policy does not propose that twice. */
  lemma RepeatIsNotSame(
    baseline: string, findings: seq<Finding>, pass: bool, experiments: seq<Record>, m: Mutation, i: nat)
    requires FromPolicy(baseline, findings, pass, experiments) && i < |experiments|
    requires Decides(StateBefore(baseline, findings, pass, experiments), Propose(m))
    requires experiments[i].mutation.kind == m.kind && experiments[i].mutation.service == m.service
    ensures IsRetry(m) && !IsRetry(experiments[i].mutation)
  {
    var next := Record(m.id, CurrentHash(baseline, experiments), "", m, Rollback, "", false);
    var longer := experiments + [next];
    FromPolicyStep(baseline, findings, pass, experiments, next);
    var n := |experiments|;
    assert longer[..n] == experiments && longer[..i] == experiments[..i];
    RepeatIsRetry(baseline, findings, pass, longer, i, n);
    IdShape(StateBefore(baseline, findings, pass, experiments), m);
    SuffixedId(SetReadOnly, m.service, RETRY_SUFFIX);
    if IsRetry(experiments[i].mutation) {
      assert ProposedAt(baseline, findings, pass, experiments, i);
      IdShape(StateBefore(baseline, findings, pass, experiments[..i]), experiments[i].mutation);
      RetryOf(baseline, findings, pass, longer, n);
      RetryOf(baseline, findings, pass, longer, i);
      TmpfsOnce(baseline, findings, pass, longer, i - 1, n - 1);
    }
  }

  /** Without two findings on services named S and S + ":after-tmpfs", every proposal has a fresh id. */
  lemma FreshIds(baseline: string, findings: seq<Finding>, pass: bool, experiments: seq<Record>, m: Mutation)
    requires FromPolicy(baseline, findings, pass, experiments)
    requires Decides(StateBefore(baseline, findings, pass, experiments), Propose(m))
    requires forall i, j :: 0 <= i < |findings| && 0 <= j < |findings| ==>
               findings[i].service != findings[j].service + RETRY_SUFFIX
    ensures forall i :: 0 <= i < |experiments| ==> experiments[i].id != m.id
  {
    var next := Record(m.id, CurrentHash(baseline, experiments), "", m, Rollback, "", false);
    FromPolicyStep(baseline, findings, pass, experiments, next);
    ProposalsNameFindings(baseline, findings, pass, experiments + [next], |experiments|);
    forall i | 0 <= i < |experiments|
      ensures experiments[i].id != m.id
    {
      SameIdIffNamesCollide(baseline, findings, pass, experiments, m, i);
      ProposalsNameFindings(baseline, findings, pass, experiments, i);
    }
  }

  // ----- the collision, told from what was tried

  /** SET_READ_ONLY was tried twice on the service. */
  ghost predicate TriedTwice(experiments: seq<Record>, service: string) {
    exists i, j :: 0 <= i < j < |experiments| && ReadOnlyOn(experiments[i], service) && ReadOnlyOn(experiments[j], service)
  }

  predicate ReadOnlyOn(r: Record, service: string) {
    r.mutation.kind == SetReadOnly && r.mutation.service == service
  }

  lemma TriedIsAttempted(experiments: seq<Record>, service: string)
    ensures Attempted(experiments, SetReadOnly, service) <==> exists i :: 0 <= i < |experiments| && ReadOnlyOn(experiments[i], service)
  {
    if Attempted(experiments, SetReadOnly, service) {
      var i :| 0 <= i < |experiments| && experiments[i].mutation.kind == SetReadOnly && experiments[i].mutation.service == service;
      assert ReadOnlyOn(experiments[i], service);
    }
  }

  /** The retries are the SET_READ_ONLY on services that had one before. */
  lemma ProposedRetryIff(
    baseline: string, findings: seq<Finding>, pass: bool, experiments: seq<Record>, m: Mutation)
    requires FromPolicy(baseline, findings, pass, experiments)
    requires Decides(StateBefore(baseline, findings, pass, experiments), Propose(m)) && m.kind == SetReadOnly
    ensures IsRetry(m) <==> Attempted(experiments, SetReadOnly, m.service)
  {
    var state := StateBefore(baseline, findings, pass, experiments);
    IdShape(state, m);
    ProposalShape(state, m);
    if IsRetry(m) {
      RetryService(state, m);
    } else if IsFirstTime(state, m) {
      FirstTimeIsNew(state, m);
    }
  }

  lemma RetryService(state: PolicyState, m: Mutation)
    requires CanRetryReadOnly(state) && FollowUp(state) == Some(m) && m.kind == SetReadOnly
    ensures Attempted(state.experiments, SetReadOnly, m.service)
  {
    var n := |state.experiments|;
    assert state.experiments[n - 2].mutation.kind == SetReadOnly && state.experiments[n - 2].mutation.service == m.service;
  }

  lemma RecordedRetryIff(
    baseline: string, findings: seq<Finding>, pass: bool, experiments: seq<Record>, i: nat)
    requires FromPolicy(baseline, findings, pass, experiments) && i < |experiments|
    requires experiments[i].mutation.kind == SetReadOnly
    ensures IsRetry(experiments[i].mutation) <==> Attempted(experiments[..i], SetReadOnly, experiments[i].mutation.service)
  {
    assert ProposedAt(baseline, findings, pass, experiments, i);
    PrefixFromPolicy(baseline, findings, pass, experiments, i);
    ProposedRetryIff(baseline, findings, pass, experiments[..i], experiments[i].mutation);
  }

  lemma PrefixFromPolicy(baseline: string, findings: seq<Finding>, pass: bool, experiments: seq<Record>, n: nat)
    requires FromPolicy(baseline, findings, pass, experiments) && n <= |experiments|
    ensures FromPolicy(baseline, findings, pass, experiments[..n])
  {
    forall i | 0 <= i < n ensures ProposedAt(baseline, findings, pass, experiments[..n], i) {
      assert experiments[..n][..i] == experiments[..i];
      assert ProposedAt(baseline, findings, pass, experiments, i);
    }
  }

  /** A service that was tried has its first try among the records. */
  lemma {:induction false} FirstTryIsRecorded(
    baseline: string, findings: seq<Finding>, pass: bool, experiments: seq<Record>, i: nat, service: string)
    requires FromPolicy(baseline, findings, pass, experiments) && i < |experiments| && ReadOnlyOn(experiments[i], service)
    ensures exists k :: 0 <= k < |experiments| && ReadOnlyOn(experiments[k], service) && !IsRetry(experiments[k].mutation)
    decreases i
  {
    if IsRetry(experiments[i].mutation) {
      RecordedRetryIff(baseline, findings, pass, experiments, i);
      TriedIsAttempted(experiments[..i], service);
      var h :| 0 <= h < i && ReadOnlyOn(experiments[..i][h], service);
      FirstTryIsRecorded(baseline, findings, pass, experiments, h, service);
    }
  }

  /** The proposed id is already recorded exactly when the proposal is the retry for a service and its name with the
      suffix was tried as a service, or the first try on a service whose name is another's with the suffix, tried twice. */
  ghost predicate Repeats(experiments: seq<Record>, m: Mutation) {
    m.kind == SetReadOnly &&
    if Attempted(experiments, SetReadOnly, m.service) then Attempted(experiments, SetReadOnly, m.service + RETRY_SUFFIX)
    else exists service :: TriedTwice(experiments, service) && m.service == service + RETRY_SUFFIX
  }

  lemma RepeatsIfCollides(
    baseline: string, findings: seq<Finding>, pass: bool, experiments: seq<Record>, m: Mutation, i: nat)
    requires FromPolicy(baseline, findings, pass, experiments) && i < |experiments|
    requires Decides(StateBefore(baseline, findings, pass, experiments), Propose(m))
    requires NamesCollide(experiments[i].mutation, m)
    ensures Repeats(experiments, m)
  {
    var r := experiments[i].mutation;
    ProposedRetryIff(baseline, findings, pass, experiments, m);
    assert ReadOnlyOn(experiments[i], r.service);
    if IsRetry(m) {
      TriedIsAttempted(experiments, m.service + RETRY_SUFFIX);
    } else {
      RecordedRetryIff(baseline, findings, pass, experiments, i);
      TriedIsAttempted(experiments[..i], r.service);
      var h :| 0 <= h < i && ReadOnlyOn(experiments[..i][h], r.service);
      assert ReadOnlyOn(experiments[h], r.service);
      assert TriedTwice(experiments, r.service);
    }
  }

  lemma FirstTryCollides(
    baseline: string, findings: seq<Finding>, pass: bool, experiments: seq<Record>, m: Mutation)
    requires FromPolicy(baseline, findings, pass, experiments) && IsRetry(m)
    requires Attempted(experiments, SetReadOnly, m.service + RETRY_SUFFIX)
    ensures exists i :: 0 <= i < |experiments| && NamesCollide(experiments[i].mutation, m)
  {
    var other := m.service + RETRY_SUFFIX;
    TriedIsAttempted(experiments, other);
    var i :| 0 <= i < |experiments| && ReadOnlyOn(experiments[i], other);
    FirstTryIsRecorded(baseline, findings, pass, experiments, i, other);
    var k :| 0 <= k < |experiments| && ReadOnlyOn(experiments[k], other) && !IsRetry(experiments[k].mutation);
    assert NamesCollide(experiments[k].mutation, m);
  }

  lemma SecondTryCollides(
    baseline: string, findings: seq<Finding>, pass: bool, experiments: seq<Record>, m: Mutation, service: string)
    requires FromPolicy(baseline, findings, pass, experiments) && m.kind == SetReadOnly && !IsRetry(m)
    requires TriedTwice(experiments, service) && m.service == service + RETRY_SUFFIX
    ensures exists i :: 0 <= i < |experiments| && NamesCollide(experiments[i].mutation, m)
  {
    var i, j :| 0 <= i < j < |experiments| && ReadOnlyOn(experiments[i], service) && ReadOnlyOn(experiments[j], service);
    assert ReadOnlyOn(experiments[..j][i], service);
    TriedIsAttempted(experiments[..j], service);
    RecordedRetryIff(baseline, findings, pass, experiments, j);
    assert NamesCollide(experiments[j].mutation, m);
  }

  lemma CollidesIfRepeats(
    baseline: string, findings: seq<Finding>, pass: bool, experiments: seq<Record>, m: Mutation)
    requires FromPolicy(baseline, findings, pass, experiments)
    requires Decides(StateBefore(baseline, findings, pass, experiments), Propose(m))
    requires Repeats(experiments, m)
    ensures exists i :: 0 <= i < |experiments| && NamesCollide(experiments[i].mutation, m)
  {
    ProposedRetryIff(baseline, findings, pass, experiments, m);
    if IsRetry(m) {
      FirstTryCollides(baseline, findings, pass, experiments, m);
    } else {
      var service :| TriedTwice(experiments, service) && m.service == service + RETRY_SUFFIX;
      SecondTryCollides(baseline, findings, pass, experiments, m, service);
    }
  }

  lemma RecordedIffRepeats(
    baseline: string, findings: seq<Finding>, pass: bool, experiments: seq<Record>, m: Mutation)
    requires FromPolicy(baseline, findings, pass, experiments)
    requires Decides(StateBefore(baseline, findings, pass, experiments), Propose(m))
    ensures (exists i :: 0 <= i < |experiments| && experiments[i].id == m.id) <==> Repeats(experiments, m)
  {
    RecordedIffNamesCollide(baseline, findings, pass, experiments, m);
    if i :| 0 <= i < |experiments| && NamesCollide(experiments[i].mutation, m) {
      RepeatsIfCollides(baseline, findings, pass, experiments, m, i);
    }
    if Repeats(experiments, m) { CollidesIfRepeats(baseline, findings, pass, experiments, m); }
  }

  // ----- a history in which it happens

  /** Two services have a writable root file system, and nothing else is found. */
  ghost predicate TwoReadOnly(state: PolicyState, a: string, b: string) {
    && state.findings == [Finding(WritableRootfs, a), Finding(WritableRootfs, b)]
    && StopReason(state).None? && FollowUp(state).None?
    && !Attempted(state.experiments, SetReadOnly, b) && Less(a, b)
  }

  /** A proposal from a known map of candidates. */
  lemma FirstIsProposed(state: PolicyState, candidates: map<Identity, nat>, c: Identity)
    requires StopReason(state).None? && FollowUp(state).None?
    requires IsCandidateMap(state, candidates) && IsFirst(candidates, c)
    ensures Decides(state, Propose(FirstTime(c)))
  {
    assert IsCandidate(state, c);
  }

  lemma AskedOfTwo(state: PolicyState, a: string, b: string, c: Identity)
    requires TwoReadOnly(state, a, b)
    ensures AskedBy(state, 2, c) <==>
            c == (SetReadOnly, b) || (c == (SetReadOnly, a) && !Attempted(state.experiments, SetReadOnly, a))
    ensures AskedBy(state, 2, c) ==> WorstOf(state, 2, c, Severity(WritableRootfs))
  {
    AskedStep(state, 0, c);
    AskedStep(state, 1, c);
  }

  /** The one that was not tried, or the one whose name comes first, is tried next. */
  lemma NextOfTwo(state: PolicyState, a: string, b: string)
    requires TwoReadOnly(state, a, b)
    ensures Decides(state, Propose(FirstTime((SetReadOnly, if Attempted(state.experiments, SetReadOnly, a) then b else a))))
  {
    LessIrreflexive(a);
    var x, y := (SetReadOnly, a), (SetReadOnly, b);
    var severity := Severity(WritableRootfs);
    var tried := Attempted(state.experiments, SetReadOnly, a);
    var candidates: map<Identity, nat> := if tried then map[y := severity] else map[x := severity, y := severity];
    forall c
      ensures c in candidates <==> AskedBy(state, 2, c)
      ensures c in candidates ==> WorstOf(state, 2, c, candidates[c])
    {
      AskedOfTwo(state, a, b, c);
    }
    FirstIsProposed(state, candidates, if tried then y else x);
  }

  function TwinFindings(service: string): seq<Finding> {
    [Finding(WritableRootfs, service), Finding(WritableRootfs, service + RETRY_SUFFIX)]
  }

  /** SET_READ_ONLY fails with a change under /tmp. */
  function TwinFailed(service: string): Record {
    var m := FirstTime((SetReadOnly, service));
    Record(m.id, "h0", "h1", m, Rollback, "journey_regression", true)
  }

  /** ADD_TMPFS is kept. */
  function TwinTmpfs(service: string): Record {
    var m := Mutation(TmpfsId(service), AddTmpfs, service, true);
    Record(m.id, "h0", "h2", m, Keep, "baseline_pass_journeys_preserved", false)
  }

  /** The retry fails again. */
  function TwinRetry(service: string): Record {
    var m := Mutation(RetryId(service), SetReadOnly, service, true);
    Record(m.id, "h2", "h3", m, Rollback, "journey_regression", false)
  }

  function TwinState(service: string, experiments: seq<Record>): PolicyState {
    StateBefore("h0", TwinFindings(service), true, experiments)
  }

  lemma {:induction false} PrefixIsLess(s: string, t: string)
    requires t != []
    ensures Less(s, s + t)
  {
    if s != [] {
      PrefixIsLess(s[1..], t);
      assert (s + t)[1..] == s[1..] + t;
    }
  }

  lemma TwinsDiffer(service: string)
    ensures Less(service, service + RETRY_SUFFIX) && service != service + RETRY_SUFFIX
  {
    PrefixIsLess(service, RETRY_SUFFIX);
    assert |service + RETRY_SUFFIX| > |service|;
  }

  lemma TwinFirst(service: string)
    ensures Decides(TwinState(service, []), Propose(TwinFailed(service).mutation))
  {
    TwinsDiffer(service);
    NextOfTwo(TwinState(service, []), service, service + RETRY_SUFFIX);
  }

  lemma RolledBack(baseline: string, r: Record)
    requires r.verdict != Keep
    ensures CurrentHash(baseline, [r]) == baseline
  {
    assert [r][..0] == [];
  }

  lemma TwinSecond(service: string)
    ensures Decides(TwinState(service, [TwinFailed(service)]), Propose(TwinTmpfs(service).mutation))
  {
    var r := TwinFailed(service);
    var state := TwinState(service, [r]);
    RolledBack("h0", r);
    assert CanAddTmpfs(state);
  }

  lemma TwinThird(service: string)
    ensures Decides(TwinState(service, [TwinFailed(service), TwinTmpfs(service)]), Propose(TwinRetry(service).mutation))
  {
    var a, b := TwinFailed(service), TwinTmpfs(service);
    var state := TwinState(service, [a, b]);
    assert state.currentHash == "h2" && "h0"[1] != "h2"[1];
    assert state.experiments[0] == a && state.experiments[1] == b && |state.experiments| == 2;
    assert a.parentHash != b.candidateHash && b.mutation.kind != SetReadOnly;
    assert CanRetryReadOnly(state);
    assert !CanAddTmpfs(state);
  }

  function TwinHistory(service: string): seq<Record> {
    [TwinFailed(service), TwinTmpfs(service), TwinRetry(service)]
  }

  lemma TwinLast(service: string)
    ensures Decides(TwinState(service, TwinHistory(service)), Propose(FirstTime((SetReadOnly, service + RETRY_SUFFIX))))
  {
    TwinsDiffer(service);
    var h := TwinHistory(service);
    var state := TwinState(service, h);
    assert h[0].mutation.kind == SetReadOnly && h[0].mutation.service == service;
    assert h[1].mutation.kind == AddTmpfs && h[1].mutation.service == service;
    assert h[1].verdict == Keep;
    NextOfTwo(state, service, service + RETRY_SUFFIX);
  }

  lemma TwinAfterOne(service: string)
    ensures FromPolicy("h0", TwinFindings(service), true, [TwinFailed(service)])
  {
    var r := TwinFailed(service);
    TwinFirst(service);
    FromPolicyStep("h0", TwinFindings(service), true, [], r);
    assert [] + [r] == [r];
  }

  lemma TwinAfterTwo(service: string)
    ensures FromPolicy("h0", TwinFindings(service), true, [TwinFailed(service), TwinTmpfs(service)])
  {
    var before, r := [TwinFailed(service)], TwinTmpfs(service);
    TwinAfterOne(service);
    TwinSecond(service);
    RolledBack("h0", TwinFailed(service));
    FromPolicyStep("h0", TwinFindings(service), true, before, r);
    assert before + [r] == [TwinFailed(service), TwinTmpfs(service)];
  }

  lemma TwinIsFromPolicy(service: string)
    ensures FromPolicy("h0", TwinFindings(service), true, TwinHistory(service))
  {
    var before, r := [TwinFailed(service), TwinTmpfs(service)], TwinRetry(service);
    TwinAfterTwo(service);
    TwinThird(service);
    FromPolicyStep("h0", TwinFindings(service), true, before, r);
    assert before + [r] == TwinHistory(service);
  }

  /** For every service: with writable root file systems on it and on the service named like its retry, and nothing
      else, there is a history after which the proposal for the other service has the id of the retry. */
  lemma TwinIdRepeats(service: string)
    ensures FromPolicy("h0", TwinFindings(service), true, TwinHistory(service))
    ensures var m := FirstTime((SetReadOnly, service + RETRY_SUFFIX));
            && Decides(StateBefore("h0", TwinFindings(service), true, TwinHistory(service)), Propose(m))
            && m.id == TwinHistory(service)[2].id
  {
    TwinIsFromPolicy(service);
    TwinLast(service);
    SuffixedId(SetReadOnly, service, RETRY_SUFFIX);
  }
}
