/** Static risk findings of a Compose document, and their score. */
module Risk {
  import opened Basics
  import opened ComposeValues

  // ----- values as Compose tags let them be read

  datatype Reading = Reset | Unsupported | Read(value: Value)

  /** `_effective_value`: a tagged scalar is read as the scalar under its tag. */
  function EffectiveValue(v: Value): Reading {
    match TagOf(v)
    case None => Read(v)
    case Some(tag) =>
      if tag == "!reset" then Reset
      else if tag == "!override" then Read(if v.Tagged? then Atom(v.scalar) else v)
      else Unsupported
  }

  /** `mapping.get(key, default)`. */
  function GetOr(entries: seq<Entry>, key: string, default: Value): Value {
    if Has(entries, key) then Get(entries, key) else default
  }

  function Field(entries: seq<Entry>, key: string): Reading {
    EffectiveValue(GetOr(entries, key, Atom(Null)))
  }

  predicate ReadsStr(r: Reading, s: string) {
    r == Read(Atom(Str(s)))
  }

  predicate ReadsTrue(r: Reading) {
    r == Read(Atom(Bool(true)))
  }

  // ----- findings

  datatype Kind =
    | Privileged | HostNetwork | HostPid | CapAdd | RootUser | RootUserPossible
    | WritableRootfs | DockerSocketRw | RwHostBind

  datatype Finding = Finding(kind: Kind, service: string)

  function Severity(kind: Kind): nat {
    match kind
    case Privileged => 100
    case DockerSocketRw => 90
    case HostNetwork => 70
    case HostPid => 70
    case CapAdd => 50
    case RootUser => 30
    case RootUserPossible => 30
    case WritableRootfs => 25
    case RwHostBind => 25
  }

  function BeforeColon(s: string): string {
    if s == [] || s[0] == ':' then [] else [s[0]] + BeforeColon(s[1..])
  }

  predicate IsRootUser(user: Reading) {
    user.Read? && user.value.Atom? &&
    match user.value.scalar
    case Int(n) => n == 0
    case Str(s) => BeforeColon(s) == "root" || BeforeColon(s) == "0"
    case _ => false
  }

  predicate IsUserUnset(user: Reading) {
    user == Reset || user == Read(Atom(Null)) || ReadsStr(user, "")
  }

  function When(condition: bool, kind: Kind, service: string): seq<Finding> {
    if condition then [Finding(kind, service)] else []
  }

  predicate AddsCaps(r: Reading) {
    r.Read? && r.value.List? && r.value.items != []
  }

  function VolumesOf(entries: seq<Entry>): seq<Value> {
    var r := Field(entries, "volumes");
    if r.Read? && r.value.List? then r.value.items else []
  }

  predicate IsSocketRw(volume: Value) {
    var bind := RecognizedHostBind(volume);
    bind.Some? && bind.value.readWrite && IsDockerSocket(bind.value.source)
  }

  predicate IsHostRw(volume: Value) {
    var bind := RecognizedHostBind(volume);
    bind.Some? && bind.value.readWrite && !IsDockerSocket(bind.value.source)
  }

  predicate AnySocketRw(volumes: seq<Value>) {
    exists i :: 0 <= i < |volumes| && IsSocketRw(volumes[i])
  }

  predicate AnyHostRw(volumes: seq<Value>) {
    exists i :: 0 <= i < |volumes| && IsHostRw(volumes[i])
  }

  predicate Flagged(entries: seq<Entry>, kind: Kind) {
    match kind
    case Privileged => ReadsTrue(Field(entries, "privileged"))
    case HostNetwork => ReadsStr(Field(entries, "network_mode"), "host")
    case HostPid => ReadsStr(Field(entries, "pid"), "host")
    case CapAdd => AddsCaps(Field(entries, "cap_add"))
    case RootUser => IsRootUser(Field(entries, "user"))
    case RootUserPossible => !IsRootUser(Field(entries, "user")) && IsUserUnset(Field(entries, "user"))
    case WritableRootfs => !ReadsTrue(Field(entries, "read_only"))
    case DockerSocketRw => AnySocketRw(VolumesOf(entries))
    case RwHostBind => AnyHostRw(VolumesOf(entries))
  }

  /** The order the checks run in. */
  const KINDS: seq<Kind> := [Privileged, HostNetwork, HostPid, CapAdd, RootUser, RootUserPossible,
                             WritableRootfs, DockerSocketRw, RwHostBind]

  function FindingsAmong(service: string, entries: seq<Entry>, kinds: seq<Kind>): seq<Finding> {
    if kinds == [] then [] else
      FindingsAmong(service, entries, kinds[..|kinds| - 1]) +
      When(Flagged(entries, kinds[|kinds| - 1]), kinds[|kinds| - 1], service)
  }

  function AnalyzeService(service: string, entries: seq<Entry>): seq<Finding> {
    FindingsAmong(service, entries, KINDS)
  }

  function AnalyzeDefinition(service: string, definition: Value): seq<Finding> {
    var r := EffectiveValue(definition);
    if r.Read? && r.value.Mapping? then AnalyzeService(service, r.value.entries) else []
  }

  function AnalyzeServices(services: seq<Entry>): seq<Finding> {
    if services == [] then [] else
      var last := services[|services| - 1];
      AnalyzeServices(services[..|services| - 1]) + AnalyzeDefinition(last.key, last.value)
  }

  /** `analyze_risk` before its final sort, which moves findings and changes none. */
  function AnalyzeRisk(doc: Value): seq<Finding> {
    if !doc.Mapping? then [] else
      var services := Field(doc.entries, "services");
      if services.Read? && services.value.Mapping? then AnalyzeServices(services.value.entries) else []
  }

  method CollectFindings(services: seq<Entry>) returns (findings: seq<Finding>)
    ensures findings == AnalyzeServices(services)
  {
    findings := [];
    for i := 0 to |services|
      invariant findings == AnalyzeServices(services[..i])
    {
      PrefixStep(services, i);
      findings := findings + AnalyzeDefinition(services[i].key, services[i].value);
    }
    assert services[..|services|] == services;
  }

  function RiskScore(findings: seq<Finding>): nat {
    if findings == [] then 0 else
      RiskScore(findings[..|findings| - 1]) + Severity(findings[|findings| - 1].kind)
  }

  lemma {:induction false} ScoreAppend(a: seq<Finding>, b: seq<Finding>)
    ensures RiskScore(a + b) == RiskScore(a) + RiskScore(b)
  {
    if b == [] {
      assert a + b == a;
    } else {
      var n := |b| - 1;
      assert (a + b)[..|a + b| - 1] == a + b[..n];
      ScoreAppend(a, b[..n]);
    }
  }

  // ----- bind mounts

  datatype Bind = Bind(source: string, readWrite: bool)

  function RecognizedHostBind(volume: Value): Option<Bind> {
    var r := EffectiveValue(volume);
    if !r.Read? then None else
    match r.value
    case Mapping(_, entries) =>
      if !ReadsStr(Field(entries, "type"), "bind") then None else
        var source := Field(entries, "source");
        if source.Read? && source.value.Atom? && source.value.scalar.Str? && IsHostPath(source.value.scalar.s)
        then Some(Bind(source.value.scalar.s, !ReadsTrue(Field(entries, "read_only"))))
        else None
    case Atom(Str(s)) => ShortHostBind(s)
    case _ => None
  }

  predicate IsDockerSocket(source: string) {
    Slashed(source) == "/var/run/docker.sock"
  }

  function Slashed(s: string): string {
    seq(|s|, i requires 0 <= i < |s| => if s[i] == '\\' then '/' else s[i])
  }

  predicate IsAsciiLetter(c: char) {
    'A' <= c <= 'Z' || 'a' <= c <= 'z'
  }

  predicate IsSlash(c: char) {
    c == '/' || c == '\\'
  }

  predicate IsHostPathPrefix(volume: string, end: nat)
    requires end <= |volume|
  {
    || (end >= 1 && volume[0] == '/')
    || (end >= 2 && volume[0] == '.' && IsSlash(volume[1]))
    || (end >= 2 && volume[0] == '~' && volume[1] == '/')
    || (end >= 3 && volume[0] == '.' && volume[1] == '.' && IsSlash(volume[2]))
    || (end >= 2 && volume[0] == '\\' && volume[1] == '\\')
    || (end >= 3 && IsAsciiLetter(volume[0]) && volume[1] == ':' && IsSlash(volume[2]))
  }

  predicate IsHostPath(source: string) {
    IsHostPathPrefix(source, |source|)
  }

  predicate IsContainerPathRange(volume: string, start: nat, end: nat)
    requires end <= |volume|
  {
    && start < end
    && (|| volume[start] == '/'
        || (end - start >= 2 && volume[start] == '\\' && volume[start + 1] == '\\')
        || (end - start >= 3 && IsAsciiLetter(volume[start]) && volume[start + 1] == ':' && IsSlash(volume[start + 2])))
  }

  predicate IsModeChar(c: char) {
    IsAsciiLetter(c) || '0' <= c <= '9' || c == '.' || c == '_' || c == '-'
  }

  /** Non-empty tokens of mode characters, separated by commas. */
  predicate IsScalarMode(mode: string) {
    && mode != []
    && (forall i :: 0 <= i < |mode| ==> mode[i] == ',' || IsModeChar(mode[i]))
    && mode[0] != ',' && mode[|mode| - 1] != ','
    && forall i :: 0 <= i < |mode| - 1 ==> !(mode[i] == ',' && mode[i + 1] == ',')
  }

  /** The same test as the source runs it, with the start of the current token. */
  method CheckScalarMode(volume: string, start: nat, end: nat) returns (r: bool)
    requires start <= end <= |volume|
    ensures r <==> IsScalarMode(volume[start..end])
  {
    if start >= end { return false; }
    ghost var mode := volume[start..end];
    var tokenStart := start;
    for i := start to end
      invariant start <= tokenStart <= i
      invariant forall j :: 0 <= j < i - start ==> mode[j] == ',' || IsModeChar(mode[j])
      invariant tokenStart == start || mode[tokenStart - 1 - start] == ','
      invariant forall j :: tokenStart - start <= j < i - start ==> mode[j] != ','
      invariant forall j :: 0 <= j < i - start - 1 ==> !(mode[j] == ',' && mode[j + 1] == ',')
      invariant i > start ==> mode[0] != ','
    {
      assert mode[i - start] == volume[i];
      if volume[i] == ',' {
        if i == tokenStart {
          assert i == start || (mode[i - start - 1] == ',' && mode[i - 1 - start + 1] == ',');
          return false;
        }
        tokenStart := i + 1;
      } else if !IsModeChar(volume[i]) {
        return false;
      }
    }
    assert tokenStart == end ==> mode[|mode| - 1] == ',';
    r := tokenStart < end;
  }

  predicate Splits(volume: string, i: nat, end: nat)
    requires i < end <= |volume|
  {
    volume[i] == ':' && IsHostPathPrefix(volume, i) && IsContainerPathRange(volume, i + 1, end)
  }

  /** The only place the entry can be read as host path, colon, container path. */
  ghost predicate OnlySplit(volume: string, i: nat, end: nat)
    requires end <= |volume|
  {
    && i < end && Splits(volume, i, end)
    && forall j :: 0 <= j < end && j != i ==> !Splits(volume, j, end)
  }

  /** Looks at the separators below `k`, with the one found at or above `k`; two are none. */
  function ScanSplits(volume: string, k: nat, end: nat, found: Option<nat>): (r: Option<nat>)
    requires k <= end <= |volume|
    requires found.Some? ==> k <= found.value < end && Splits(volume, found.value, end)
    requires forall j :: k <= j < end && Some(j) != found ==> !Splits(volume, j, end)
    ensures r.Some? ==> OnlySplit(volume, r.value, end)
    ensures r.None? ==> forall i :: 0 <= i < end ==> !OnlySplit(volume, i, end)
  {
    if k == 0 then found
    else if !Splits(volume, k - 1, end) then ScanSplits(volume, k - 1, end, found)
    else if found.Some? then None
    else ScanSplits(volume, k - 1, end, Some(k - 1))
  }

  /** The scan as the source runs it, right to left. */
  method ScanShortVolume(volume: string, end: nat) returns (r: Option<nat>)
    requires end <= |volume|
    ensures r.Some? ==> OnlySplit(volume, r.value, end)
    ensures r.None? ==> forall i :: 0 <= i < end ==> !OnlySplit(volume, i, end)
    ensures r == ScanSplits(volume, end, end, None)
  {
    r := None;
    for k := end downto 0
      invariant r.Some? ==> k <= r.value < end && Splits(volume, r.value, end)
      invariant forall j :: k <= j < end && Some(j) != r ==> !Splits(volume, j, end)
      invariant ScanSplits(volume, k, end, r) == ScanSplits(volume, end, end, None)
    {
      if Splits(volume, k, end) {
        if r.Some? { return None; }
        r := Some(k);
      }
    }
  }

  function LastColon(volume: string): (r: int)
    ensures -1 <= r < |volume|
    ensures r >= 0 ==> volume[r] == ':'
  {
    if volume == [] then -1
    else if volume[|volume| - 1] == ':' then |volume| - 1
    else LastColon(volume[..|volume| - 1])
  }

  /** Does a comma-separated list name this token? */
  predicate HasToken(mode: string, token: string) {
    exists i, j :: 0 <= i <= j <= |mode| && IsToken(mode, i, j) && mode[i..j] == token
  }

  predicate IsToken(mode: string, i: nat, j: nat)
    requires i <= j <= |mode|
  {
    && (i == 0 || mode[i - 1] == ',')
    && (j == |mode| || mode[j] == ',')
    && forall k :: i <= k < j ==> mode[k] != ','
  }

  /** `source:target[:mode]`, when it can be read in one way only. */
  function ShortHostBind(volume: string): Option<Bind> {
    var colon := LastColon(volume);
    if colon >= 0 && IsScalarMode(volume[colon + 1..]) then
      match ScanSplits(volume, colon, colon, None)
      case None => None
      case Some(i) => Some(Bind(volume[..i], !HasToken(volume[colon + 1..], "ro")))
    else
      match ScanSplits(volume, |volume|, |volume|, None)
      case None => None
      case Some(i) => Some(Bind(volume[..i], true))
  }
}
