/** What a mutation does to the findings, and which findings a mutation can answer. */
module MutationRisk {
  import opened Basics
  import opened ComposeValues
  import opened Risk
  import opened Mutations
  import opened MutationLaws
  import opened MutationMeaning

  /** The key a finding is read from. */
  function FlagKey(kind: Kind): string {
    match kind
    case Privileged => "privileged"
    case HostNetwork => "network_mode"
    case HostPid => "pid"
    case CapAdd => "cap_add"
    case RootUser => "user"
    case RootUserPossible => "user"
    case WritableRootfs => "read_only"
    case DockerSocketRw => "volumes"
    case RwHostBind => "volumes"
  }

  lemma FlaggedByKey(a: seq<Entry>, b: seq<Entry>, kind: Kind)
    requires GetOr(a, FlagKey(kind), Atom(Null)) == GetOr(b, FlagKey(kind), Atom(Null))
    ensures Flagged(a, kind) <==> Flagged(b, kind)
  {
    match kind
    case DockerSocketRw => assert VolumesOf(a) == VolumesOf(b);
    case RwHostBind => assert VolumesOf(a) == VolumesOf(b);
    case _ => assert Field(a, FlagKey(kind)) == Field(b, FlagKey(kind));
  }

  /** The findings read from the key a mutation writes. */
  function ReadFrom(kind: MutationType): set<Kind> {
    match kind
    case RemoveDockerSocket => {DockerSocketRw, RwHostBind}
    case _ => ClearedKinds(kind)
  }

  lemma KeysDistinct(kind: MutationType, finding: Kind)
    ensures KeyOf(kind) == FlagKey(finding) <==> finding in ReadFrom(kind)
  {
    assert "volumes"[0] == 'v' && "cap_add"[0] == 'c';
    assert |KeyOf(kind)| == KeyLength(kind);
    assert |FlagKey(finding)| == FlagLength(finding);
  }

  function KeyLength(kind: MutationType): nat {
    match kind
    case SetNonRoot => 4 case DropAllCaps => 8 case SetReadOnly => 9 case AddTmpfs => 5
    case DropPrivileged => 10 case RemoveDockerSocket => 7 case BridgeNetwork => 12
  }

  function FlagLength(kind: Kind): nat {
    match kind
    case Privileged => 10 case HostNetwork => 12 case HostPid => 3 case CapAdd => 7 case RootUser => 4
    case RootUserPossible => 4 case WritableRootfs => 9 case DockerSocketRw => 7 case RwHostBind => 7
  }

  /** The findings each mutation is there to clear. */
  function ClearedKinds(kind: MutationType): set<Kind> {
    match kind
    case SetNonRoot => {RootUser, RootUserPossible}
    case SetReadOnly => {WritableRootfs}
    case DropPrivileged => {Privileged}
    case RemoveDockerSocket => {DockerSocketRw}
    case BridgeNetwork => {HostNetwork}
    case _ => {}
  }

  /** Afterwards exactly the findings the mutation does not clear are left. */
  lemma FlagsAfter(entries: seq<Entry>, kind: MutationType, finding: Kind)
    requires ValidEntries(entries) && MutateService(entries, kind).Ok?
    ensures Flagged(MutateService(entries, kind).value, finding) <==>
            Flagged(entries, finding) && finding !in ClearedKinds(kind)
  {
    var r := MutateService(entries, kind).value;
    KeysDistinct(kind, finding);
    if finding !in ReadFrom(kind) {
      MutateServiceFrame(entries, kind);
      FlaggedByKey(entries, r, finding);
    } else if kind.RemoveDockerSocket? {
      VolumesAfter(entries);
    } else {
      ScalarCleared(entries, kind, finding);
    }
  }

  lemma NonRootIsNotRoot()
    ensures !IsRootUser(Read(NON_ROOT)) && !IsUserUnset(Read(NON_ROOT))
  {
    NonRootPrefix();
  }

  lemma UserFlags(entries: seq<Entry>, user: Reading)
    requires Field(entries, "user") == user
    ensures Flagged(entries, RootUser) <==> IsRootUser(user)
    ensures Flagged(entries, RootUserPossible) <==> !IsRootUser(user) && IsUserUnset(user)
  {
  }

  lemma UserCleared(entries: seq<Entry>)
    requires Field(entries, "user") == Read(NON_ROOT)
    ensures !Flagged(entries, RootUser) && !Flagged(entries, RootUserPossible)
  {
    NonRootIsNotRoot();
    UserFlags(entries, Read(NON_ROOT));
  }

  lemma FlagCleared(entries: seq<Entry>)
    ensures Field(entries, "read_only") == Read(Atom(Bool(true))) ==> !Flagged(entries, WritableRootfs)
    ensures Field(entries, "privileged") == Read(Atom(Bool(false))) ==> !Flagged(entries, Privileged)
    ensures Field(entries, "network_mode") == Read(Atom(Null)) ==> !Flagged(entries, HostNetwork)
  {
  }

  lemma ScalarCleared(entries: seq<Entry>, kind: MutationType, finding: Kind)
    requires ValidEntries(entries) && MutateService(entries, kind).Ok?
    requires finding in ClearedKinds(kind) && !kind.RemoveDockerSocket?
    ensures !Flagged(MutateService(entries, kind).value, finding)
  {
    FieldAfter(entries, kind);
    var after := MutateService(entries, kind).value;
    if kind.SetNonRoot? { UserCleared(after); } else { FlagCleared(after); }
  }

  lemma FieldAfter(entries: seq<Entry>, kind: MutationType)
    requires ValidEntries(entries) && MutateService(entries, kind).Ok?
    ensures Field(MutateService(entries, kind).value, KeyOf(kind)) ==
            match Written(entries, kind) case Some(v) => EffectiveValue(v) case None => Read(Atom(Null))
  {
    MutateServiceFrame(entries, kind);
  }

  lemma NonRootPrefix()
    ensures BeforeColon("65532:65532") == "65532"
  {
    assert "65532:65532" == "65532" + ":" + "65532";
    ColonEnds("65532", "65532");
  }

  lemma {:induction false} ColonEnds(head: string, tail: string)
    requires ':' !in head
    ensures BeforeColon(head + ":" + tail) == head
  {
    if head != [] {
      ColonEnds(head[1..], tail);
      assert (head + ":" + tail)[1..] == head[1..] + ":" + tail;
    }
  }

  lemma VolumesAfter(entries: seq<Entry>)
    requires ValidEntries(entries) && MutateService(entries, RemoveDockerSocket).Ok?
    ensures VolumesOf(MutateService(entries, RemoveDockerSocket).value) == WithoutSockets(VolumesOf(entries))
    ensures !Flagged(MutateService(entries, RemoveDockerSocket).value, DockerSocketRw)
    ensures Flagged(MutateService(entries, RemoveDockerSocket).value, RwHostBind) <==> Flagged(entries, RwHostBind)
  {
    VolumesWritten(entries);
    FlagsOfVolumes(entries, MutateService(entries, RemoveDockerSocket).value);
  }

  lemma FlagsOfVolumes(was: seq<Entry>, now: seq<Entry>)
    requires VolumesOf(now) == WithoutSockets(VolumesOf(was))
    ensures !Flagged(now, DockerSocketRw)
    ensures Flagged(now, RwHostBind) <==> Flagged(was, RwHostBind)
  {
    NoSocketsRw(VolumesOf(was));
    HostBindsStay(VolumesOf(was));
  }

  lemma NoSocketsRw(volumes: seq<Value>)
    ensures !AnySocketRw(WithoutSockets(volumes))
  {
    NoSocketsLeft(volumes);
    var left := WithoutSockets(volumes);
    forall i | 0 <= i < |left| ensures !IsSocketRw(left[i]) {
      assert !IsSocketBind(left[i]);
    }
  }

  lemma VolumesWritten(entries: seq<Entry>)
    requires ValidEntries(entries) && MutateService(entries, RemoveDockerSocket).Ok?
    ensures VolumesOf(MutateService(entries, RemoveDockerSocket).value) == WithoutSockets(VolumesOf(entries))
  {
    var raw := GetOr(entries, "volumes", Atom(Null));
    MutateServiceFrame(entries, RemoveDockerSocket);
    var current := CurrentField(entries, "volumes", Atom(Null));
    assert current.Ok? && current.value.List?;
    assert Field(entries, "volumes") == Read(current.value);
    assert TagOf(raw) == TagOf(current.value);
  }

  lemma {:induction false} HostBindsStay(volumes: seq<Value>)
    ensures AnyHostRw(WithoutSockets(volumes)) <==> AnyHostRw(volumes)
  {
    if volumes != [] {
      var n := |volumes| - 1;
      HostBindsStay(volumes[..n]);
      var before, after := WithoutSockets(volumes[..n]), WithoutSockets(volumes);
      assert volumes == volumes[..n] + [volumes[n]];
      if IsSocketBind(volumes[n]) {
        assert after == before;
      } else {
        assert after == before + [volumes[n]];
        if i :| 0 <= i < |before| && IsHostRw(before[i]) { assert after[i] == before[i]; }
        if IsHostRw(volumes[n]) { assert after[|before|] == volumes[n]; }
      }
    }
  }

  // ----- scores

  ghost predicate NoNewFindings(after: seq<Finding>, before: seq<Finding>) {
    forall f :: f in after ==> f in before
  }

  /** What the flagged kinds of a set weigh. */
  function Weight(entries: seq<Entry>, kinds: seq<Kind>, of: set<Kind>): nat {
    if kinds == [] then 0 else
      var last := kinds[|kinds| - 1];
      Weight(entries, kinds[..|kinds| - 1], of) + if last in of && Flagged(entries, last) then Severity(last) else 0
  }

  lemma {:induction false} ScoreDrops(service: string, before: seq<Entry>, after: seq<Entry>, kinds: seq<Kind>, gone: set<Kind>)
    requires forall k :: k in kinds ==> (Flagged(after, k) <==> Flagged(before, k) && k !in gone)
    ensures RiskScore(FindingsAmong(service, after, kinds)) + Weight(before, kinds, gone) ==
            RiskScore(FindingsAmong(service, before, kinds))
    ensures NoNewFindings(FindingsAmong(service, after, kinds), FindingsAmong(service, before, kinds))
  {
    if kinds != [] {
      var n := |kinds| - 1;
      var k := kinds[n];
      assert k in kinds;
      ScoreDrops(service, before, after, kinds[..n], gone);
      ScoreAppend(FindingsAmong(service, after, kinds[..n]), When(Flagged(after, k), k, service));
      ScoreAppend(FindingsAmong(service, before, kinds[..n]), When(Flagged(before, k), k, service));
      assert RiskScore([]) == 0;
      var one := [Finding(k, service)];
      assert one[..|one| - 1] == [];
    }
  }

  /** What the matching finding weighs, when the service carries it. */
  function Relief(entries: seq<Entry>, kind: MutationType): nat {
    match kind
    case SetNonRoot => if Flagged(entries, RootUser) || Flagged(entries, RootUserPossible) then 30 else 0
    case SetReadOnly => if Flagged(entries, WritableRootfs) then 25 else 0
    case DropPrivileged => if Flagged(entries, Privileged) then 100 else 0
    case RemoveDockerSocket => if Flagged(entries, DockerSocketRw) then 90 else 0
    case BridgeNetwork => if Flagged(entries, HostNetwork) then 70 else 0
    case _ => 0
  }

  lemma ReliefIsWeight(entries: seq<Entry>, kind: MutationType)
    ensures Weight(entries, KINDS, ClearedKinds(kind)) == Relief(entries, kind)
  {
    KindsDistinct();
    match kind
    case SetNonRoot =>
      WeightSum(entries, KINDS, {RootUser}, {RootUserPossible});
      assert {RootUser} + {RootUserPossible} == ClearedKinds(kind);
      WeightOne(entries, KINDS, RootUser);
      WeightOne(entries, KINDS, RootUserPossible);
      assert KINDS[4] == RootUser && KINDS[5] == RootUserPossible;
    case SetReadOnly => WeightOne(entries, KINDS, WritableRootfs); assert KINDS[6] == WritableRootfs;
    case DropPrivileged => WeightOne(entries, KINDS, Privileged); assert KINDS[0] == Privileged;
    case RemoveDockerSocket => WeightOne(entries, KINDS, DockerSocketRw); assert KINDS[7] == DockerSocketRw;
    case BridgeNetwork => WeightOne(entries, KINDS, HostNetwork); assert KINDS[1] == HostNetwork;
    case _ =>
      WeightSum(entries, KINDS, {}, {});
      assert {} + {} == ClearedKinds(kind);
  }

  lemma KindsDistinct()
    ensures Distinct(KINDS)
  {
  }

  lemma {:induction false} WeightSum(entries: seq<Entry>, kinds: seq<Kind>, a: set<Kind>, b: set<Kind>)
    requires a !! b
    ensures Weight(entries, kinds, a + b) == Weight(entries, kinds, a) + Weight(entries, kinds, b)
  {
    if kinds != [] {
      WeightSum(entries, kinds[..|kinds| - 1], a, b);
    }
  }

  lemma {:induction false} WeightOne(entries: seq<Entry>, kinds: seq<Kind>, k: Kind)
    requires Distinct(kinds)
    ensures Weight(entries, kinds, {k}) == if k in kinds && Flagged(entries, k) then Severity(k) else 0
  {
    if kinds != [] {
      var n := |kinds| - 1;
      var last, front := kinds[n], kinds[..n];
      assert kinds == front + [last];
      assert last !in front;
      WeightOne(entries, front, k);
    }
  }

  /** One service: the score drops by exactly the cleared finding, and no finding is new. */
  lemma ServiceScoreDrops(service: string, entries: seq<Entry>, kind: MutationType)
    requires ValidEntries(entries) && MutateService(entries, kind).Ok?
    ensures var r := MutateService(entries, kind).value;
            && RiskScore(AnalyzeService(service, r)) + Relief(entries, kind) == RiskScore(AnalyzeService(service, entries))
            && NoNewFindings(AnalyzeService(service, r), AnalyzeService(service, entries))
  {
    var r := MutateService(entries, kind).value;
    forall k | k in KINDS
      ensures Flagged(r, k) <==> Flagged(entries, k) && k !in ClearedKinds(kind)
    {
      FlagsAfter(entries, kind, k);
    }
    ScoreDrops(service, entries, r, KINDS, ClearedKinds(kind));
    ReliefIsWeight(entries, kind);
  }

  ghost predicate AgreeBut(before: seq<Entry>, after: seq<Entry>, at: nat) {
    |before| == |after| && forall i :: 0 <= i < |before| && i != at ==> before[i] == after[i]
  }

  lemma AgreeInit(before: seq<Entry>, after: seq<Entry>, at: nat)
    requires AgreeBut(before, after, at) && at < |before|
    ensures var n := |before| - 1;
            if at == n then before[..n] == after[..n] else AgreeBut(before[..n], after[..n], at) && before[n] == after[n]
  {
  }

  lemma NoNewAppend(a: seq<Finding>, b: seq<Finding>, c: seq<Finding>, d: seq<Finding>)
    requires NoNewFindings(a, c) && NoNewFindings(b, d)
    ensures NoNewFindings(a + b, c + d)
  {
  }

  /** `after` scores `drop` less than `before`, and finds nothing new. */
  ghost predicate Drops(after: seq<Finding>, before: seq<Finding>, drop: nat) {
    RiskScore(after) + drop == RiskScore(before) && NoNewFindings(after, before)
  }

  lemma DropsAppend(a: seq<Finding>, b: seq<Finding>, c: seq<Finding>, d: seq<Finding>, first: nat, second: nat)
    requires Drops(a, c, first) && Drops(b, d, second)
    ensures Drops(a + b, c + d, first + second)
  {
    ScoreAppend(a, b);
    ScoreAppend(c, d);
    NoNewAppend(a, b, c, d);
  }

  ghost function FindingsAt(services: seq<Entry>, i: nat): seq<Finding>
    requires i < |services|
  {
    AnalyzeDefinition(services[i].key, services[i].value)
  }

  lemma SplitLast(services: seq<Entry>)
    requires services != []
    ensures var n := |services| - 1; AnalyzeServices(services) == AnalyzeServices(services[..n]) + FindingsAt(services, n)
  {
  }

  lemma {:induction false} OneServiceScore(before: seq<Entry>, after: seq<Entry>, at: nat, drop: nat)
    requires AgreeBut(before, after, at) && at < |before|
    requires Drops(FindingsAt(after, at), FindingsAt(before, at), drop)
    ensures Drops(AnalyzeServices(after), AnalyzeServices(before), drop)
    decreases |before|
  {
    var n := |before| - 1;
    SplitLast(before);
    SplitLast(after);
    AgreeInit(before, after, at);
    var was, now := AnalyzeServices(before[..n]), AnalyzeServices(after[..n]);
    if at < n {
      OneServiceScore(before[..n], after[..n], at, drop);
      DropsAppend(now, FindingsAt(after, n), was, FindingsAt(before, n), drop, 0);
    } else {
      DropsAppend(now, FindingsAt(after, n), was, FindingsAt(before, n), 0, drop);
    }
  }

  /** Is the mutated service one the analysis looks at? */
  predicate Analyzed(doc: Value, m: Mutation)
    requires CheckRequest(doc, m).None?
  {
    EffectiveValue(Get(doc.entries, "services")).Read? && EffectiveValue(ServiceOf(doc, m)).Read?
  }

  function ReliefOf(doc: Value, m: Mutation): nat
    requires CheckRequest(doc, m).None?
  {
    if Analyzed(doc, m) then Relief(ServiceOf(doc, m).entries, m.kind) else 0
  }

  /** For every accepted mutation: no finding appears, and the score falls by exactly what the
      cleared finding of the mutated service weighed. */
  lemma MutationLowersRisk(base: Value, m: Mutation)
    requires Valid(base) && ApplyMutation(base, m).Ok?
    ensures var c := ApplyMutation(base, m).value;
            && RiskScore(AnalyzeRisk(c)) + ReliefOf(base, m) == RiskScore(AnalyzeRisk(base))
            && NoNewFindings(AnalyzeRisk(c), AnalyzeRisk(base))
  {
    var c := ApplyMutation(base, m).value;
    ServicesAfter(base, m);
    var was, now := Get(base.entries, "services"), Get(c.entries, "services");
    RiskOfServices(base);
    RiskOfServices(c);
    SameTagSameReading(was, now);
    if !EffectiveValue(was).Read? {
      assert AnalyzeRisk(c) == AnalyzeRisk(base) == [] && ReliefOf(base, m) == 0;
      return;
    }
    assert AnalyzeRisk(c) == AnalyzeServices(now.entries) && AnalyzeRisk(base) == AnalyzeServices(was.entries);
    ServicesScoreDrops(was.entries, now.entries, IndexOf(was.entries, m.service), m.kind);
  }

  lemma SameTagSameReading(a: Value, b: Value)
    requires a.Mapping? && b.Mapping? && a.mark == b.mark
    ensures EffectiveValue(a).Read? <==> EffectiveValue(b).Read?
  {
  }

  /** The service, mutated. */
  function Mutated(service: Value, kind: MutationType): Value
    requires service.Mapping? && MutateService(service.entries, kind).Ok?
  {
    service.(entries := MutateService(service.entries, kind).value)
  }

  ghost predicate OneMutated(was: Value, now: Value, at: int, service: Value, kind: MutationType) {
    && was.Mapping? && now.Mapping? && now.mark == was.mark
    && 0 <= at < |was.entries| && was.entries[at].value == service
    && service.Mapping? && ValidEntries(service.entries) && MutateService(service.entries, kind).Ok?
    && now.entries == was.entries[at := Entry(was.entries[at].key, Mutated(service, kind))]
  }

  lemma ServicesAfter(base: Value, m: Mutation)
    requires Valid(base) && ApplyMutation(base, m).Ok?
    ensures var c := ApplyMutation(base, m).value;
            && CheckRequest(base, m).None? && c.Mapping? && Has(c.entries, "services")
            && var was, now := Get(base.entries, "services"), Get(c.entries, "services");
               was.Mapping? && OneMutated(was, now, IndexOf(was.entries, m.service), ServiceOf(base, m), m.kind)
  {
    ApplyMutationFrame(base, m);
    ServiceValid(base, m);
    SetEntryAt(base, m);
  }

  /** What the mutated service's own findings lose. */
  function DropOf(service: Value, kind: MutationType): nat {
    if service.Mapping? && EffectiveValue(service).Read? then Relief(service.entries, kind) else 0
  }

  lemma UnreadDrops(name: string, service: Value, kind: MutationType)
    requires service.Mapping? && MutateService(service.entries, kind).Ok? && !EffectiveValue(service).Read?
    ensures AnalyzeDefinition(name, service) == [] && AnalyzeDefinition(name, Mutated(service, kind)) == []
    ensures DropOf(service, kind) == 0
  {
  }

  lemma ReadDefinition(name: string, service: Value, kind: MutationType)
    requires service.Mapping? && MutateService(service.entries, kind).Ok? && EffectiveValue(service).Read?
    ensures AnalyzeDefinition(name, service) == AnalyzeService(name, service.entries)
    ensures AnalyzeDefinition(name, Mutated(service, kind)) == AnalyzeService(name, MutateService(service.entries, kind).value)
    ensures DropOf(service, kind) == Relief(service.entries, kind)
  {
  }

  lemma DefinitionScoreDrops(name: string, service: Value, kind: MutationType)
    requires service.Mapping? && ValidEntries(service.entries) && MutateService(service.entries, kind).Ok?
    ensures var was, now := AnalyzeDefinition(name, service), AnalyzeDefinition(name, Mutated(service, kind));
            RiskScore(now) + DropOf(service, kind) == RiskScore(was) && NoNewFindings(now, was)
  {
    if EffectiveValue(service).Read? {
      ReadDefinition(name, service, kind);
      ServiceScoreDrops(name, service.entries, kind);
    } else {
      UnreadDrops(name, service, kind);
    }
  }

  lemma ServicesScoreDrops(was: seq<Entry>, now: seq<Entry>, at: nat, kind: MutationType)
    requires at < |was| && was[at].value.Mapping? && ValidEntries(was[at].value.entries)
    requires MutateService(was[at].value.entries, kind).Ok?
    requires now == was[at := Entry(was[at].key, Mutated(was[at].value, kind))]
    ensures && RiskScore(AnalyzeServices(now)) + DropOf(was[at].value, kind) == RiskScore(AnalyzeServices(was))
            && NoNewFindings(AnalyzeServices(now), AnalyzeServices(was))
  {
    DefinitionScoreDrops(was[at].key, was[at].value, kind);
    OneServiceScore(was, now, at, DropOf(was[at].value, kind));
  }

  lemma RiskOfServices(doc: Value)
    requires doc.Mapping? && Has(doc.entries, "services") && Get(doc.entries, "services").Mapping?
    ensures AnalyzeRisk(doc) == if EffectiveValue(Get(doc.entries, "services")).Read?
                                then AnalyzeServices(Get(doc.entries, "services").entries) else []
  {
  }

  /** The document with one service's entry put in its place. */
  ghost predicate EntryPut(was: Value, now: Value, name: string, service: Value) {
    && was.Mapping? && now.Mapping? && Has(was.entries, name)
    && now.entries == was.entries[IndexOf(was.entries, name) := Entry(name, service)]
  }

  ghost predicate ServicePut(base: Value, now: Value, m: Mutation) {
    && CheckRequest(base, m).None? && CheckRequest(now, m).None?
    && EntryPut(Get(base.entries, "services"), Get(now.entries, "services"), m.service, ServiceOf(now, m))
  }

  lemma SetEntryAt(base: Value, m: Mutation)
    requires Valid(base) && ApplyMutation(base, m).Ok?
    ensures ServicePut(base, ApplyMutation(base, m).value, m)
  {
    ApplyMutationFrame(base, m);
    ServiceValid(base, m);
    var services := Get(base.entries, "services");
    var target := ServiceOf(base, m).(entries := MutateService(ServiceOf(base, m).entries, m.kind).value);
    MutateServiceFrame(ServiceOf(base, m).entries, m.kind);
    SetEntryAgrees(services.entries, m.service, target);
    SetEntryAgrees(base.entries, "services", services.(entries := SetEntry(services.entries, m.service, target)));
  }

  // ----- which findings have a mutation that will be accepted

  lemma PrivilegedActionable(entries: seq<Entry>)
    ensures Flagged(entries, Privileged) ==> MutateService(entries, DropPrivileged).Ok?
  {
  }

  lemma HostNetworkActionable(entries: seq<Entry>)
    ensures Flagged(entries, HostNetwork) ==> MutateService(entries, BridgeNetwork).Ok?
  {
  }

  lemma ReadIsCurrent(entries: seq<Entry>, key: string)
    requires Field(entries, key).Read?
    ensures CurrentField(entries, key, Atom(Null)) == Ok(Field(entries, key).value)
  {
  }

  lemma RootUserActionable(entries: seq<Entry>)
    ensures Flagged(entries, RootUser) ==> MutateService(entries, SetNonRoot).Ok?
  {
    if Flagged(entries, RootUser) {
      NonRootIsNotRoot();
      ReadIsCurrent(entries, "user");
      OkByCurrent(entries, SetNonRoot);
    }
  }

  lemma VolumesRead(entries: seq<Entry>)
    requires VolumesOf(entries) != []
    ensures CurrentField(entries, "volumes", Atom(Null)).Ok?
    ensures var current := CurrentField(entries, "volumes", Atom(Null)).value; current.List? && current.items == VolumesOf(entries)
  {
  }

  lemma DockerSocketActionable(entries: seq<Entry>)
    ensures Flagged(entries, DockerSocketRw) ==> MutateService(entries, RemoveDockerSocket).Ok?
  {
    if Flagged(entries, DockerSocketRw) {
      var volumes := VolumesOf(entries);
      var i :| 0 <= i < |volumes| && IsSocketRw(volumes[i]);
      assert IsSocketBind(volumes[i]);
      VolumesRead(entries);
      OkByCurrent(entries, RemoveDockerSocket);
    }
  }

  /** A finding of these four kinds means that its mutation will be accepted. */
  lemma FindingIsActionable(entries: seq<Entry>)
    ensures Flagged(entries, Privileged) ==> MutateService(entries, DropPrivileged).Ok?
    ensures Flagged(entries, DockerSocketRw) ==> MutateService(entries, RemoveDockerSocket).Ok?
    ensures Flagged(entries, RootUser) ==> MutateService(entries, SetNonRoot).Ok?
    ensures Flagged(entries, HostNetwork) ==> MutateService(entries, BridgeNetwork).Ok?
  {
    PrivilegedActionable(entries);
    DockerSocketActionable(entries);
    RootUserActionable(entries);
    HostNetworkActionable(entries);
  }

  /** `SET_READ_ONLY` needs more: Python's `True` also equals 1 and 1.0, which the finding does not know. */
  lemma ReadOnlyActionableIff(entries: seq<Entry>)
    ensures MutateService(entries, SetReadOnly).Ok? <==>
            var r := EffectiveValue(GetOr(entries, "read_only", Atom(Bool(false))));
            Flagged(entries, WritableRootfs) && !r.Unsupported? &&
            r != Read(Atom(Int(1))) && r != Read(Atom(Float("1.0")))
  {
  }

  lemma DropCapsActionableIff(entries: seq<Entry>)
    ensures MutateService(entries, DropAllCaps).Ok? <==>
            var r := Field(entries, "cap_drop");
            !r.Unsupported? && !(r.Read? && r.value.List? && r.value.items == [Atom(Str("ALL"))])
  {
  }

  /** Mutations of other keys change nothing for this one. */
  lemma OtherKeysKeepActionable(a: seq<Entry>, b: seq<Entry>, kind: MutationType)
    requires GetOr(a, KeyOf(kind), DefaultOf(kind)) == GetOr(b, KeyOf(kind), DefaultOf(kind))
    ensures MutateService(a, kind).Ok? <==> MutateService(b, kind).Ok?
  {
    OkByCurrent(a, kind);
    OkByCurrent(b, kind);
  }
}
