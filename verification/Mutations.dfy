/** The single-service hardening mutations. */
module Mutations {
  import opened Basics
  import opened ComposeValues
  import opened Risk

  datatype MutationType =
    | SetNonRoot | DropAllCaps | SetReadOnly | AddTmpfs | DropPrivileged | RemoveDockerSocket | BridgeNetwork

  datatype Mutation = Mutation(id: string, kind: MutationType, service: string, paramsEmpty: bool)

  datatype MutationFailure =
    | MissingId | InvalidService | UnsupportedParams | InvalidRequest | InvalidServices | UnknownService
    | TagNotSupported | AlreadySatisfied | InvalidTmpfs | InvalidVolumes

  /** The one key of the service each mutation works on. */
  function KeyOf(kind: MutationType): string {
    match kind
    case SetNonRoot => "user"
    case DropAllCaps => "cap_drop"
    case SetReadOnly => "read_only"
    case AddTmpfs => "tmpfs"
    case DropPrivileged => "privileged"
    case RemoveDockerSocket => "volumes"
    case BridgeNetwork => "network_mode"
  }

  // ----- Python's equality with the constants involved: True == 1 == 1.0, a list is its items

  predicate EqualsTrue(v: Value) {
    v == Atom(Bool(true)) || v == Atom(Int(1)) || v == Atom(Float("1.0"))
  }

  predicate EqualsFalse(v: Value) {
    v == Atom(Bool(false)) || v == Atom(Int(0)) || v == Atom(Float("0.0")) || v == Atom(Float("-0.0"))
  }

  const ALL_CAPS: seq<Value> := [Atom(Str("ALL"))]
  const NON_ROOT: Value := Atom(Str("65532:65532"))
  const TMP: Value := Atom(Str("/tmp"))

  predicate EqualsAllCaps(v: Value) {
    v.List? && v.items == ALL_CAPS
  }

  // ----- editing a Python dict

  function SetEntry(entries: seq<Entry>, key: string, v: Value): (r: seq<Entry>)
    ensures |r| == |entries| + if Has(entries, key) then 0 else 1
  {
    if Has(entries, key) then entries[IndexOf(entries, key) := Entry(key, v)]
    else entries + [Entry(key, v)]
  }

  function DropEntry(entries: seq<Entry>, key: string): seq<Entry>
    requires Has(entries, key)
  {
    entries[..IndexOf(entries, key)] + entries[IndexOf(entries, key) + 1..]
  }

  // ----- the mutations

  function CurrentField(entries: seq<Entry>, key: string, default: Value): Result<Value, MutationFailure> {
    match EffectiveValue(GetOr(entries, key, default))
    case Unsupported => Err(TagNotSupported)
    case Reset => Ok(default)
    case Read(v) => Ok(v)
  }

  function DefaultOf(kind: MutationType): Value {
    if kind.SetReadOnly? || kind.DropPrivileged? then Atom(Bool(false)) else Atom(Null)
  }

  predicate Satisfied(kind: MutationType, current: Value) {
    match kind
    case SetNonRoot => current == NON_ROOT
    case DropAllCaps => EqualsAllCaps(current)
    case SetReadOnly => EqualsTrue(current)
    case AddTmpfs => TmpfsItems(current).Some? && CountTmp(TmpfsItems(current).value) == 1
    case DropPrivileged => EqualsFalse(current)
    case RemoveDockerSocket => current.List? && forall i :: 0 <= i < |current.items| ==> !IsSocketBind(current.items[i])
    case BridgeNetwork => current != Atom(Str("host"))
  }

  function TmpfsItems(current: Value): Option<seq<Value>> {
    match current
    case Atom(Null) => Some([])
    case Atom(Str(_)) => Some([current])
    case List(_, items) =>
      if forall i :: 0 <= i < |items| ==> items[i].Atom? && items[i].scalar.Str? then Some(items) else None
    case _ => None
  }

  function CountTmp(items: seq<Value>): nat {
    if items == [] then 0 else
      CountTmp(items[..|items| - 1]) + if items[|items| - 1] == TMP then 1 else 0
  }

  function WithoutTmp(items: seq<Value>): seq<Value> {
    if items == [] then [] else
      WithoutTmp(items[..|items| - 1]) + if items[|items| - 1] == TMP then [] else [items[|items| - 1]]
  }

  predicate IsSocketBind(volume: Value) {
    var bind := RecognizedHostBind(volume);
    bind.Some? && IsDockerSocket(bind.value.source)
  }

  function WithoutSockets(items: seq<Value>): seq<Value> {
    if items == [] then [] else
      WithoutSockets(items[..|items| - 1]) +
      if IsSocketBind(items[|items| - 1]) then [] else [items[|items| - 1]]
  }

  /** What the mutation leaves of a service's entries. */
  function MutateService(entries: seq<Entry>, kind: MutationType): Result<seq<Entry>, MutationFailure> {
    match CurrentField(entries, KeyOf(kind), DefaultOf(kind))
    case Err(error) => Err(error)
    case Ok(current) =>
      if kind.AddTmpfs? && TmpfsItems(current).None? then Err(InvalidTmpfs)
      else if kind.RemoveDockerSocket? && !current.List? then Err(InvalidVolumes)
      else if Satisfied(kind, current) then Err(AlreadySatisfied)
      else Ok(
        match kind
        case SetNonRoot => SetEntry(entries, "user", NON_ROOT)
        case DropAllCaps => SetEntry(entries, "cap_drop", List(None, ALL_CAPS))
        case SetReadOnly => SetEntry(entries, "read_only", Atom(Bool(true)))
        case AddTmpfs => SetEntry(entries, "tmpfs", List(None, WithoutTmp(TmpfsItems(current).value) + [TMP]))
        case DropPrivileged => SetEntry(entries, "privileged", Atom(Bool(false)))
        case RemoveDockerSocket =>
          SetEntry(entries, "volumes", List(TagOf(GetOr(entries, "volumes", Atom(Null))), WithoutSockets(current.items)))
        case BridgeNetwork =>
          assert Has(entries, "network_mode");
          DropEntry(entries, "network_mode"))
  }

  function CheckRequest(base: Value, m: Mutation): Option<MutationFailure> {
    if !base.Mapping? then Some(InvalidRequest)
    else if m.id == "" then Some(MissingId)
    else if m.service == "" then Some(InvalidService)
    else if !m.paramsEmpty then Some(UnsupportedParams)
    else if !GetOr(base.entries, "services", Atom(Null)).Mapping? then Some(InvalidServices)
    else if !Has(Get(base.entries, "services").entries, m.service) then Some(UnknownService)
    else if !Get(Get(base.entries, "services").entries, m.service).Mapping? then Some(InvalidService)
    else None
  }

  /** `base` with one service's mapping put in place of the old one. */
  function WithService(base: Value, service: string, entries: seq<Entry>): Value
    requires CheckRequest(base, Mutation("-", SetNonRoot, service, true)).None?
  {
    var services := Get(base.entries, "services");
    var target := Get(services.entries, service).(entries := entries);
    base.(entries := SetEntry(base.entries, "services", services.(entries := SetEntry(services.entries, service, target))))
  }

  function ApplyMutation(base: Value, m: Mutation): Result<Value, MutationFailure> {
    if CheckRequest(base, m).Some? then Err(CheckRequest(base, m).value) else
      var service := Get(Get(base.entries, "services").entries, m.service);
      match MutateService(service.entries, m.kind)
      case Err(error) => Err(error)
      case Ok(entries) => Ok(WithService(base, m.service, entries))
  }

  // ----- the same edits on the copied target, in place

  class TargetService {
    var entries: seq<Entry>

    constructor (copied: seq<Entry>)
      ensures entries == copied
    {
      entries := copied;
    }

    method Mutate(kind: MutationType) returns (failure: Option<MutationFailure>)
      modifies this
      ensures match MutateService(old(entries), kind)
              case Ok(mutated) => failure.None? && entries == mutated
              case Err(error) => failure == Some(error) && entries == old(entries)
    {
      match kind
      case SetNonRoot => failure := SetScalar(kind, NON_ROOT);
      case DropAllCaps => failure := SetScalar(kind, List(None, ALL_CAPS));
      case SetReadOnly => failure := SetScalar(kind, Atom(Bool(true)));
      case DropPrivileged => failure := SetScalar(kind, Atom(Bool(false)));
      case AddTmpfs => failure := AddTmpfsMount();
      case RemoveDockerSocket => failure := RemoveSockets();
      case BridgeNetwork => failure := RemoveHostNetwork();
    }

    method SetScalar(kind: MutationType, v: Value) returns (failure: Option<MutationFailure>)
      requires kind in {SetNonRoot, DropAllCaps, SetReadOnly, DropPrivileged}
      modifies this
      ensures match CurrentField(old(entries), KeyOf(kind), DefaultOf(kind))
              case Err(error) => failure == Some(error) && entries == old(entries)
              case Ok(current) =>
                if Satisfied(kind, current) then failure == Some(AlreadySatisfied) && entries == old(entries)
                else failure.None? && entries == SetEntry(old(entries), KeyOf(kind), v)
    {
      var current := CurrentField(entries, KeyOf(kind), DefaultOf(kind));
      if current.Err? { return Some(current.error); }
      if Satisfied(kind, current.value) { return Some(AlreadySatisfied); }
      entries := SetEntry(entries, KeyOf(kind), v);
      failure := None;
    }

    method AddTmpfsMount() returns (failure: Option<MutationFailure>)
      modifies this
      ensures match MutateService(old(entries), AddTmpfs)
              case Ok(mutated) => failure.None? && entries == mutated
              case Err(error) => failure == Some(error) && entries == old(entries)
    {
      var current := CurrentField(entries, "tmpfs", Atom(Null));
      if current.Err? { return Some(current.error); }
      var items := TmpfsItems(current.value);
      if items.None? { return Some(InvalidTmpfs); }
      if CountTmp(items.value) == 1 { return Some(AlreadySatisfied); }
      entries := SetEntry(entries, "tmpfs", List(None, WithoutTmp(items.value) + [TMP]));
      failure := None;
    }

    method RemoveSockets() returns (failure: Option<MutationFailure>)
      modifies this
      ensures match MutateService(old(entries), RemoveDockerSocket)
              case Ok(mutated) => failure.None? && entries == mutated
              case Err(error) => failure == Some(error) && entries == old(entries)
    {
      var current := CurrentField(entries, "volumes", Atom(Null));
      if current.Err? { return Some(current.error); }
      if !current.value.List? { return Some(InvalidVolumes); }
      var volumes, removed := DeleteSockets(current.value.items);
      if !removed { return Some(AlreadySatisfied); }
      entries := SetEntry(entries, "volumes", List(TagOf(GetOr(entries, "volumes", Atom(Null))), volumes));
      failure := None;
    }

    method RemoveHostNetwork() returns (failure: Option<MutationFailure>)
      modifies this
      ensures match MutateService(old(entries), BridgeNetwork)
              case Ok(mutated) => failure.None? && entries == mutated
              case Err(error) => failure == Some(error) && entries == old(entries)
    {
      var current := CurrentField(entries, "network_mode", Atom(Null));
      if current.Err? { return Some(current.error); }
      if current.value != Atom(Str("host")) { return Some(AlreadySatisfied); }
      assert Has(entries, "network_mode");
      entries := DropEntry(entries, "network_mode");
      failure := None;
    }
  }

  /** Deletes the removable volumes from the last to the first, so that earlier indices stay right. */
  method DeleteSockets(all: seq<Value>) returns (volumes: seq<Value>, removed: bool)
    ensures volumes == WithoutSockets(all)
    ensures removed <==> exists i :: 0 <= i < |all| && IsSocketBind(all[i])
  {
    volumes := all;
    removed := false;
    assert all[..|all|] == all;
    for k := |all| downto 0
      invariant volumes == all[..k] + Remaining(all, k)
      invariant removed == SocketFrom(all, k)
    {
      SpliceOut(all, k, Remaining(all, k + 1));
      SocketFromStep(all, k);
      if IsSocketBind(volumes[k]) {
        volumes := volumes[..k] + volumes[k + 1..];
        removed := true;
      }
    }
    RemainingIsWithout(all, 0);
    assert all[..0] == [];
  }

  ghost predicate SocketFrom(all: seq<Value>, k: nat) {
    exists i :: k <= i < |all| && IsSocketBind(all[i])
  }

  lemma SocketFromStep(all: seq<Value>, k: nat)
    requires k < |all|
    ensures SocketFrom(all, k) == (IsSocketBind(all[k]) || SocketFrom(all, k + 1))
  {
  }

  /** One deletion from the back: at `k`, either the item is kept or it is cut out. */
  lemma SpliceOut(all: seq<Value>, k: nat, rest: seq<Value>)
    requires k < |all|
    ensures var now := all[..k + 1] + rest;
            now[k] == all[k] && now[..k] + now[k + 1..] == all[..k] + rest && now == all[..k] + ([all[k]] + rest)
  {
  }

  /** The volumes at or after `k` that stay. */
  ghost function Remaining(items: seq<Value>, k: nat): seq<Value>
    requires k <= |items|
    decreases |items| - k
  {
    if k == |items| then []
    else (if IsSocketBind(items[k]) then [] else [items[k]]) + Remaining(items, k + 1)
  }

  lemma {:induction false} RemainingIsWithout(items: seq<Value>, k: nat)
    requires k <= |items|
    ensures WithoutSockets(items) == WithoutSockets(items[..k]) + Remaining(items, k)
    decreases |items| - k
  {
    if k == |items| {
      assert items[..k] == items;
    } else {
      RemainingIsWithout(items, k + 1);
      PrefixStep(items, k);
    }
  }
}
