/** Which findings a document has, in the document's own terms. */
module RiskFindings {
  import opened Basics
  import opened ComposeValues
  import opened Risk
  import ComposeMerge

  /** What a key holds, read under its tag: nothing without the key or under `!reset`. */
  function Held(entries: seq<Entry>, key: string): Option<Value> {
    if Has(entries, key) && EffectiveValue(Get(entries, key)).Read? then Some(EffectiveValue(Get(entries, key)).value) else None
  }

  /** The text names this user, with a group behind it or not. */
  ghost predicate NamesUser(text: string, user: string) {
    text == user || exists group: string :: text == user + ":" + group
  }

  ghost predicate IsRoot(v: Option<Value>) {
    v == Some(Atom(Int(0))) || (exists s: string :: v == Some(Atom(Str(s))) && (NamesUser(s, "root") || NamesUser(s, "0")))
  }

  /** No user is set. */
  predicate NoUser(entries: seq<Entry>) {
    || !Has(entries, "user") || EffectiveValue(Get(entries, "user")) == Reset
    || Held(entries, "user") == Some(Atom(Null)) || Held(entries, "user") == Some(Atom(Str("")))
  }

  ghost predicate HasVolume(entries: seq<Entry>, p: Value -> bool) {
    exists mark, items, i ::
      Held(entries, "volumes") == Some(List(mark, items)) && 0 <= i < |items| && p(items[i])
  }

  /** The service shows the risk. */
  ghost predicate Shows(entries: seq<Entry>, kind: Kind) {
    match kind
    case Privileged => Held(entries, "privileged") == Some(Atom(Bool(true)))
    case HostNetwork => Held(entries, "network_mode") == Some(Atom(Str("host")))
    case HostPid => Held(entries, "pid") == Some(Atom(Str("host")))
    case CapAdd => exists mark, cap, more :: Held(entries, "cap_add") == Some(List(mark, [cap] + more))
    case RootUser => IsRoot(Held(entries, "user"))
    case RootUserPossible => NoUser(entries)
    case WritableRootfs => Held(entries, "read_only") != Some(Atom(Bool(true)))
    case DockerSocketRw => HasVolume(entries, IsSocketRw)
    case RwHostBind => HasVolume(entries, IsHostRw)
  }

  lemma HeldIs(entries: seq<Entry>, key: string)
    ensures Held(entries, key).Some? ==> Field(entries, key) == Read(Held(entries, key).value)
    ensures Held(entries, key).None? ==> !Field(entries, key).Read? || Field(entries, key) == Read(Atom(Null))
  {
  }

  lemma NamesNobody(s: string, user: string)
    requires user != "" && ':' !in user && (s == "" || s[0] == ':')
    ensures !NamesUser(s, user)
  {
    forall group: string ensures s != user + ":" + group { assert (user + ":" + group)[0] == user[0]; }
  }

  lemma {:induction false} BeforeColonIs(s: string, user: string)
    requires ':' !in user
    ensures BeforeColon(s) == user <==> NamesUser(s, user)
    decreases |s|
  {
    if user == "" {
      assert s != "" && s[0] == ':' ==> s == user + ":" + s[1..];
      assert forall group: string :: s == user + ":" + group ==> s[0] == ':';
    } else if s == "" || s[0] == ':' {
      NamesNobody(s, user);
    } else {
      BeforeColonIs(s[1..], user[1..]);
      NamesUserStep(s, user);
      var before := BeforeColon(s[1..]);
      assert user == [user[0]] + user[1..];
      assert [s[0]] + before == user <==> s[0] == user[0] && before == user[1..] by {
        if [s[0]] + before == user { assert ([s[0]] + before)[1..] == before; }
      }
    }
  }

  lemma NamesUserStep(s: string, user: string)
    requires s != [] && user != []
    ensures NamesUser(s, user) <==> s[0] == user[0] && NamesUser(s[1..], user[1..])
  {
    if NamesUser(s, user) && s != user {
      var group :| s == user + ":" + group;
      assert s[1..] == user[1..] + ":" + group;
    }
    if s[0] == user[0] && NamesUser(s[1..], user[1..]) {
      if s[1..] == user[1..] {
        assert s == [s[0]] + s[1..] == user;
      } else {
        var group :| s[1..] == user[1..] + ":" + group;
        assert s == [s[0]] + s[1..] == user + ":" + group;
      }
    }
  }

  lemma RootIs(entries: seq<Entry>)
    ensures IsRootUser(Field(entries, "user")) <==> IsRoot(Held(entries, "user"))
  {
    HeldIs(entries, "user");
    var v := Held(entries, "user");
    if v.Some? && v.value.Atom? && v.value.scalar.Str? {
      BeforeColonIs(v.value.scalar.s, "root");
      BeforeColonIs(v.value.scalar.s, "0");
    }
  }

  lemma UserUnsetIs(entries: seq<Entry>)
    ensures IsUserUnset(Field(entries, "user")) <==> NoUser(entries)
  {
    HeldIs(entries, "user");
  }

  lemma NoUserIsNotRoot(entries: seq<Entry>)
    requires NoUser(entries)
    ensures !IsRoot(Held(entries, "user"))
  {
    var v := Held(entries, "user");
    if s: string :| v == Some(Atom(Str(s))) && (NamesUser(s, "root") || NamesUser(s, "0")) {
      NamesNobody("", "root");
      NamesNobody("", "0");
    }
  }

  lemma CapsAre(entries: seq<Entry>)
    ensures AddsCaps(Field(entries, "cap_add")) <==> Shows(entries, CapAdd)
  {
    HeldIs(entries, "cap_add");
    var v := Held(entries, "cap_add");
    if v.Some? && v.value.List? && v.value.items != [] {
      var items := v.value.items;
      assert [items[0]] + items[1..] == items;
      assert v == Some(List(v.value.mark, [items[0]] + items[1..]));
    }
  }

  lemma VolumesAre(entries: seq<Entry>, p: Value -> bool)
    ensures (exists i :: 0 <= i < |VolumesOf(entries)| && p(VolumesOf(entries)[i])) <==> HasVolume(entries, p)
  {
    HeldIs(entries, "volumes");
    var v := Held(entries, "volumes");
    var volumes := VolumesOf(entries);
    if i :| 0 <= i < |volumes| && p(volumes[i]) {
      assert v == Some(List(v.value.mark, volumes));
    }
  }

  /** The finding of each kind means what it says. */
  lemma FlaggedIsShown(entries: seq<Entry>, kind: Kind)
    ensures Flagged(entries, kind) <==> Shows(entries, kind)
  {
    match kind
    case Privileged => HeldIs(entries, "privileged");
    case HostNetwork => HeldIs(entries, "network_mode");
    case HostPid => HeldIs(entries, "pid");
    case CapAdd => CapsAre(entries);
    case RootUser => RootIs(entries);
    case RootUserPossible => RootIs(entries); UserUnsetIs(entries); if NoUser(entries) { NoUserIsNotRoot(entries); }
    case WritableRootfs => HeldIs(entries, "read_only");
    case DockerSocketRw => VolumesAre(entries, IsSocketRw);
    case RwHostBind => VolumesAre(entries, IsHostRw);
  }

  // ----- the findings of a document

  lemma {:induction false} AmongIff(service: string, entries: seq<Entry>, kinds: seq<Kind>, f: Finding)
    ensures f in FindingsAmong(service, entries, kinds) <==> f.service == service && f.kind in kinds && Flagged(entries, f.kind)
    decreases |kinds|
  {
    if kinds != [] {
      var n := |kinds| - 1;
      AmongIff(service, entries, kinds[..n], f);
      assert kinds == kinds[..n] + [kinds[n]];
    }
  }

  lemma EveryKind(kind: Kind)
    ensures kind in KINDS
  {
    var k := KINDS;
    assert k[0] == Privileged && k[1] == HostNetwork && k[2] == HostPid && k[3] == CapAdd && k[4] == RootUser;
    assert k[5] == RootUserPossible && k[6] == WritableRootfs && k[7] == DockerSocketRw && k[8] == RwHostBind;
  }

  /** The service's definition is a mapping and shows the risk. */
  ghost predicate DefinitionShows(definition: Value, kind: Kind) {
    var r := EffectiveValue(definition);
    r.Read? && r.value.Mapping? && Shows(r.value.entries, kind)
  }

  lemma DefinitionIff(service: string, definition: Value, f: Finding)
    ensures f in AnalyzeDefinition(service, definition) <==> f.service == service && DefinitionShows(definition, f.kind)
  {
    var r := EffectiveValue(definition);
    if r.Read? && r.value.Mapping? {
      AmongIff(service, r.value.entries, KINDS, f);
      EveryKind(f.kind);
      FlaggedIsShown(r.value.entries, f.kind);
    }
  }

  lemma {:induction false} ServicesIff(services: seq<Entry>, f: Finding)
    requires Distinct(Keys(services))
    ensures f in AnalyzeServices(services) <==> Has(services, f.service) && DefinitionShows(Get(services, f.service), f.kind)
    decreases |services|
  {
    if services != [] {
      var n := |services| - 1;
      ComposeMerge.DistinctInit(services);
      ServicesIff(services[..n], f);
      DefinitionIff(services[n].key, services[n].value, f);
      LastService(services, n, f.service);
    }
  }

  lemma LastService(services: seq<Entry>, n: nat, name: string)
    requires |services| == n + 1 && Distinct(Keys(services))
    ensures Has(services, name) <==> services[n].key == name || Has(services[..n], name)
    ensures services[n].key == name ==> !Has(services[..n], name) && Get(services, name) == services[n].value
    ensures Has(services[..n], name) ==> Get(services, name) == Get(services[..n], name)
  {
    HasIffKey(services, name);
    HasIffKey(services[..n], name);
    GetAt(services, n);
    if Has(services[..n], name) {
      GetAt(services, IndexOf(services[..n], name));
      assert Keys(services)[IndexOf(services[..n], name)] != Keys(services)[n];
    }
    if Has(services, name) { assert IndexOf(services, name) < n ==> services[..n][IndexOf(services, name)].key == name; }
  }

  /** The document's service of that name shows the risk. */
  ghost predicate ServiceShows(doc: Value, name: string, kind: Kind) {
    doc.Mapping? &&
    var services := Held(doc.entries, "services");
    && services.Some? && services.value.Mapping? && Has(services.value.entries, name)
    && DefinitionShows(Get(services.value.entries, name), kind)
  }

  /** The findings of a document are exactly the risks its services show. */
  lemma FindingIff(doc: Value, f: Finding)
    requires Valid(doc)
    ensures f in AnalyzeRisk(doc) <==> ServiceShows(doc, f.service, f.kind)
  {
    if doc.Mapping? {
      HeldIs(doc.entries, "services");
      var services := Held(doc.entries, "services");
      if services.Some? && services.value.Mapping? {
        ServicesDistinct(doc.entries);
        ServicesIff(services.value.entries, f);
      }
    }
  }

  lemma ServicesDistinct(entries: seq<Entry>)
    requires ValidEntries(entries) && Held(entries, "services").Some? && Held(entries, "services").value.Mapping?
    ensures Distinct(Keys(Held(entries, "services").value.entries))
  {
    assert Valid(entries[IndexOf(entries, "services")].value);
  }

  // ----- each finding once

  lemma DistinctBoth(a: seq<Finding>, b: seq<Finding>)
    requires Distinct(a) && Distinct(b) && forall f :: f in a ==> f !in b
    ensures Distinct(a + b)
  {
    forall i, j | 0 <= i < j < |a + b| ensures (a + b)[i] != (a + b)[j] {
      if i < |a| <= j { assert a[i] in a && b[j - |a|] in b; }
    }
  }

  lemma {:induction false} AmongDistinct(service: string, entries: seq<Entry>, kinds: seq<Kind>)
    requires Distinct(kinds)
    ensures Distinct(FindingsAmong(service, entries, kinds))
    decreases |kinds|
  {
    if kinds != [] {
      var n := |kinds| - 1;
      AmongDistinct(service, entries, kinds[..n]);
      var before, last := FindingsAmong(service, entries, kinds[..n]), When(Flagged(entries, kinds[n]), kinds[n], service);
      forall f | f in before ensures f !in last {
        AmongIff(service, entries, kinds[..n], f);
        var i :| 0 <= i < n && kinds[..n][i] == f.kind;
        assert kinds[i] != kinds[n];
      }
      DistinctBoth(before, last);
    }
  }

  lemma KindsDistinct()
    ensures Distinct(KINDS)
  {
    var k := KINDS;
    assert k[0] == Privileged && k[1] == HostNetwork && k[2] == HostPid && k[3] == CapAdd && k[4] == RootUser;
    assert k[5] == RootUserPossible && k[6] == WritableRootfs && k[7] == DockerSocketRw && k[8] == RwHostBind;
  }

  lemma {:induction false} ServiceFindingsDistinct(services: seq<Entry>)
    requires Distinct(Keys(services))
    ensures Distinct(AnalyzeServices(services))
    decreases |services|
  {
    if services != [] {
      var n := |services| - 1;
      ComposeMerge.DistinctInit(services);
      ServiceFindingsDistinct(services[..n]);
      var before, last := AnalyzeServices(services[..n]), AnalyzeDefinition(services[n].key, services[n].value);
      DefinitionDistinct(services[n].key, services[n].value);
      forall f | f in before ensures f !in last {
        ServicesIff(services[..n], f);
        DefinitionIff(services[n].key, services[n].value, f);
      }
      DistinctBoth(before, last);
    }
  }

  lemma DefinitionDistinct(service: string, definition: Value)
    ensures Distinct(AnalyzeDefinition(service, definition))
  {
    var r := EffectiveValue(definition);
    if r.Read? && r.value.Mapping? {
      KindsDistinct();
      AmongDistinct(service, r.value.entries, KINDS);
    }
  }

  /** No finding is reported twice. */
  lemma FindingsOnce(doc: Value)
    requires Valid(doc)
    ensures Distinct(AnalyzeRisk(doc))
  {
    if doc.Mapping? {
      HeldIs(doc.entries, "services");
      var services := Held(doc.entries, "services");
      if services.Some? && services.value.Mapping? {
        ServicesDistinct(doc.entries);
        ServiceFindingsDistinct(services.value.entries);
      }
    }
  }

  // ----- the score

  function Number(findings: seq<Finding>, kind: Kind): nat {
    if findings == [] then 0 else
      Number(findings[..|findings| - 1], kind) + if findings[|findings| - 1].kind == kind then 1 else 0
  }

  /** The score weighs every finding by its kind. */
  lemma {:induction false} ScoreLaw(findings: seq<Finding>)
    ensures RiskScore(findings) ==
            100 * Number(findings, Privileged) + 90 * Number(findings, DockerSocketRw)
            + 70 * (Number(findings, HostNetwork) + Number(findings, HostPid)) + 50 * Number(findings, CapAdd)
            + 30 * (Number(findings, RootUser) + Number(findings, RootUserPossible))
            + 25 * (Number(findings, WritableRootfs) + Number(findings, RwHostBind))
    decreases |findings|
  {
    if findings != [] { ScoreLaw(findings[..|findings| - 1]); }
  }
}
