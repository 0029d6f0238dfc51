/** What each mutation leaves under its key and when it is refused, in the document's own terms. */
module MutationEffects {
  import opened Basics
  import opened ComposeValues
  import opened Risk
  import opened Mutations
  import opened MutationLaws
  import opened Overlay

  // ----- a list some of whose items are taken out

  /** `after` is the items of `before` at these places, in order, and these are all the places where `keep` holds. */
  ghost predicate KeptAt(before: seq<Value>, after: seq<Value>, places: seq<nat>, keep: Value -> bool) {
    && |places| == |after|
    && (forall i :: 0 <= i < |places| ==> places[i] < |before| && after[i] == before[places[i]] && keep(after[i]))
    && (forall i, j :: 0 <= i < j < |places| ==> places[i] < places[j])
    && forall p :: 0 <= p < |before| && keep(before[p]) ==> p in places
  }

  /** The items taken out are only those for which `keep` does not hold: the others stay, in order, each as often. */
  ghost predicate Keeps(before: seq<Value>, after: seq<Value>, keep: Value -> bool) {
    && (exists places :: KeptAt(before, after, places, keep))
    && forall v :: multiset(after)[v] == if keep(v) then multiset(before)[v] else 0
  }

  function Filtered(items: seq<Value>, keep: Value -> bool): seq<Value> {
    if items == [] then [] else
      var n := |items| - 1;
      Filtered(items[..n], keep) + if keep(items[n]) then [items[n]] else []
  }

  lemma {:induction false} FilteredAt(items: seq<Value>, keep: Value -> bool) returns (places: seq<nat>)
    ensures KeptAt(items, Filtered(items, keep), places, keep)
    decreases |items|
  {
    if items == [] {
      places := [];
    } else {
      var n := |items| - 1;
      var before := FilteredAt(items[..n], keep);
      places := if keep(items[n]) then before + [n] else before;
      KeptMore(items, Filtered(items[..n], keep), Filtered(items, keep), n, keep, before, places);
    }
  }

  lemma KeptPlaces(items: seq<Value>, init: seq<Value>, n: nat, before: seq<nat>, keep: Value -> bool)
    requires |items| == n + 1 && KeptAt(items[..n], init, before, keep)
    ensures forall i :: 0 <= i < |before| ==> before[i] < n && init[i] == items[before[i]] && keep(init[i])
    ensures forall p :: 0 <= p < n && keep(items[p]) ==> p in before
  {
    forall i | 0 <= i < |before| ensures before[i] < n && init[i] == items[before[i]] && keep(init[i]) {
      assert items[..n][before[i]] == items[before[i]];
    }
    forall p | 0 <= p < n && keep(items[p]) ensures p in before { assert items[..n][p] == items[p]; }
  }

  lemma KeptMore(items: seq<Value>, init: seq<Value>, r: seq<Value>, n: nat, keep: Value -> bool, before: seq<nat>, places: seq<nat>)
    requires |items| == n + 1 && KeptAt(items[..n], init, before, keep)
    requires if keep(items[n]) then r == init + [items[n]] && places == before + [n] else r == init && places == before
    ensures KeptAt(items, r, places, keep)
  {
    KeptPlaces(items, init, n, before, keep);
    if keep(items[n]) { KeptOneMore(items, init, n, before, keep); }
  }

  lemma KeptOneMore(items: seq<Value>, init: seq<Value>, n: nat, before: seq<nat>, keep: Value -> bool)
    requires |items| == n + 1 && keep(items[n]) && |before| == |init|
    requires forall i :: 0 <= i < |before| ==> before[i] < n && init[i] == items[before[i]] && keep(init[i])
    requires forall i, j :: 0 <= i < j < |before| ==> before[i] < before[j]
    requires forall p :: 0 <= p < n && keep(items[p]) ==> p in before
    ensures KeptAt(items, init + [items[n]], before + [n], keep)
  {
    var places := before + [n];
    forall p | 0 <= p < |items| && keep(items[p]) ensures p in places {
      if p == n { assert places[|before|] == n; } else { assert p in before; }
    }
  }

  lemma {:induction false} FilteredCounts(items: seq<Value>, keep: Value -> bool, v: Value)
    ensures multiset(Filtered(items, keep))[v] == if keep(v) then multiset(items)[v] else 0
    decreases |items|
  {
    if items != [] {
      var n := |items| - 1;
      FilteredCounts(items[..n], keep, v);
      assert items == items[..n] + [items[n]];
    }
  }

  lemma FilteredKeeps(items: seq<Value>, keep: Value -> bool)
    ensures Keeps(items, Filtered(items, keep), keep)
  {
    var places := FilteredAt(items, keep);
    forall v ensures multiset(Filtered(items, keep))[v] == if keep(v) then multiset(items)[v] else 0 {
      FilteredCounts(items, keep, v);
    }
  }

  ghost function NotTmp(): Value -> bool {
    (v: Value) => v != Atom(Str("/tmp"))
  }

  ghost function NotSocket(): Value -> bool {
    (v: Value) => !IsSocketBind(v)
  }

  lemma {:induction false} WithoutTmpIs(items: seq<Value>)
    ensures WithoutTmp(items) == Filtered(items, NotTmp())
    decreases |items|
  {
    if items != [] { WithoutTmpIs(items[..|items| - 1]); }
  }

  lemma {:induction false} WithoutSocketsIs(items: seq<Value>)
    ensures WithoutSockets(items) == Filtered(items, NotSocket())
    decreases |items|
  {
    if items != [] { WithoutSocketsIs(items[..|items| - 1]); }
  }

  // ----- what is under the key afterwards

  /** The tmpfs mounts a service has: none, one as a string, or a list of strings. */
  ghost predicate Mounts(entries: seq<Entry>, items: seq<Value>) {
    && (forall i :: 0 <= i < |items| ==> items[i].Atom? && items[i].scalar.Str?)
    && match EffectiveValue(GetOr(entries, "tmpfs", Atom(Null)))
       case Reset => items == []
       case Read(Atom(Null)) => items == []
       case Read(Atom(s)) => items == [Atom(s)]
       case Read(List(_, listed)) => items == listed
       case _ => false
  }

  /** The volumes a service has as a list. */
  ghost predicate Volumes(entries: seq<Entry>, items: seq<Value>) {
    var r := EffectiveValue(GetOr(entries, "volumes", Atom(Null)));
    r.Read? && r.value.List? && r.value.items == items
  }

  /** The effect of a mutation on the entries of its service. */
  ghost predicate Effect(kind: MutationType, was: seq<Entry>, now: seq<Entry>) {
    match kind
    case SetNonRoot => Has(now, "user") && Get(now, "user") == Atom(Str("65532:65532"))
    case DropAllCaps => Has(now, "cap_drop") && Get(now, "cap_drop") == List(None, [Atom(Str("ALL"))])
    case SetReadOnly => Has(now, "read_only") && Get(now, "read_only") == Atom(Bool(true))
    case DropPrivileged => Has(now, "privileged") && Get(now, "privileged") == Atom(Bool(false))
    case BridgeNetwork => !Has(now, "network_mode")
    case AddTmpfs =>
      Has(now, "tmpfs") && exists before, after ::
        Mounts(was, before) && Keeps(before, after, NotTmp()) && Get(now, "tmpfs") == List(None, after + [Atom(Str("/tmp"))])
    case RemoveDockerSocket =>
      Has(now, "volumes") && exists before, after ::
        && Volumes(was, before) && Keeps(before, after, NotSocket())
        && Get(now, "volumes") == List(TagOf(GetOr(was, "volumes", Atom(Null))), after)
  }

  lemma MountsAre(entries: seq<Entry>)
    requires MutateService(entries, AddTmpfs).Ok?
    ensures Mounts(entries, TmpfsItems(CurrentField(entries, "tmpfs", Atom(Null)).value).value)
  {
  }

  lemma TmpfsEffect(was: seq<Entry>, now: seq<Entry>)
    requires ValidEntries(was) && MutateService(was, AddTmpfs) == Ok(now)
    ensures Effect(AddTmpfs, was, now)
  {
    MutateServiceFrame(was, AddTmpfs);
    MountsAre(was);
    var before := TmpfsItems(CurrentField(was, "tmpfs", Atom(Null)).value).value;
    WithoutTmpIs(before);
    FilteredKeeps(before, NotTmp());
  }

  lemma SocketEffect(was: seq<Entry>, now: seq<Entry>)
    requires ValidEntries(was) && MutateService(was, RemoveDockerSocket) == Ok(now)
    ensures Effect(RemoveDockerSocket, was, now)
  {
    MutateServiceFrame(was, RemoveDockerSocket);
    var before := CurrentField(was, "volumes", Atom(Null)).value.items;
    assert Volumes(was, before);
    WithoutSocketsIs(before);
    FilteredKeeps(before, NotSocket());
  }

  lemma ServiceEffect(kind: MutationType, was: seq<Entry>, now: seq<Entry>)
    requires ValidEntries(was) && MutateService(was, kind) == Ok(now)
    ensures Effect(kind, was, now)
  {
    match kind
    case AddTmpfs => TmpfsEffect(was, now);
    case RemoveDockerSocket => SocketEffect(was, now);
    case _ => MutateServiceFrame(was, kind);
  }

  /** Every accepted mutation of a document has its effect on the one service, and none on any other key of it, on any
      other service, or on anything around the services. For ADD_TMPFS that is a list that ends with "/tmp", before it
      exactly the earlier mounts other than "/tmp"; for REMOVE_DOCKER_SOCKET, exactly the volumes that are no socket. */
  lemma MutationEffect(base: Value, m: Mutation)
    requires Valid(base) && ApplyMutation(base, m).Ok?
    ensures var c := ApplyMutation(base, m).value;
            && Has(c.entries, "services") && c.Mapping? && Get(c.entries, "services").Mapping?
            && AgreeExcept(base.entries, c.entries, "services")
            && AgreeExcept(ServicesOf(base), ServicesOf(c), m.service)
            && Has(ServicesOf(base), m.service) && Has(ServicesOf(c), m.service)
            && var was, now := Get(ServicesOf(base), m.service), Get(ServicesOf(c), m.service);
               && was.Mapping? && now.Mapping?
               && AgreeExcept(was.entries, now.entries, KeyOf(m.kind)) && Effect(m.kind, was.entries, now.entries)
  {
    ApplyMutationFrame(base, m);
    var c := ApplyMutation(base, m).value;
    PartsValid(base, m);
    ServiceEffect(m.kind, ServiceOf(base, m).entries, ServiceOf(c, m).entries);
  }

  // ----- when a mutation is refused

  lemma {:induction false} CountIsMultiset(items: seq<Value>)
    ensures CountTmp(items) == multiset(items)[Atom(Str("/tmp"))]
    decreases |items|
  {
    if items != [] {
      var n := |items| - 1;
      CountIsMultiset(items[..n]);
      assert items == items[..n] + [items[n]];
    }
  }

  /** What the service has under the mutation's key already answers the mutation. */
  ghost predicate Answered(kind: MutationType, entries: seq<Entry>) {
    var r := EffectiveValue(GetOr(entries, KeyOf(kind), Atom(Null)));
    match kind
    case SetNonRoot => r == Read(Atom(Str("65532:65532")))
    case DropAllCaps => r.Read? && r.value.List? && r.value.items == [Atom(Str("ALL"))]
    case SetReadOnly => r in {Read(Atom(Bool(true))), Read(Atom(Int(1))), Read(Atom(Float("1.0")))}
    case DropPrivileged =>
      || !Has(entries, "privileged") || r == Reset
      || r in {Read(Atom(Bool(false))), Read(Atom(Int(0))), Read(Atom(Float("0.0"))), Read(Atom(Float("-0.0")))}
    case AddTmpfs => exists items :: Mounts(entries, items) && multiset(items)[Atom(Str("/tmp"))] == 1
    case RemoveDockerSocket => exists items :: Volumes(entries, items) && forall v :: v in items ==> !IsSocketBind(v)
    case BridgeNetwork => r != Read(Atom(Str("host")))
  }

  /** What is under the key cannot be read as the mutation has to read it. */
  ghost predicate Unreadable(kind: MutationType, entries: seq<Entry>) {
    match kind
    case AddTmpfs => forall items :: !Mounts(entries, items)
    case RemoveDockerSocket => forall items :: !Volumes(entries, items)
    case _ => false
  }

  lemma MountsUnique(entries: seq<Entry>, a: seq<Value>, b: seq<Value>)
    requires Mounts(entries, a) && Mounts(entries, b)
    ensures a == b
  {
  }

  lemma MountsRead(entries: seq<Entry>)
    requires !EffectiveValue(GetOr(entries, "tmpfs", Atom(Null))).Unsupported?
    ensures var read := TmpfsItems(CurrentField(entries, "tmpfs", Atom(Null)).value);
            if read.Some? then Mounts(entries, read.value) else forall items :: !Mounts(entries, items)
  {
    var read := TmpfsItems(CurrentField(entries, "tmpfs", Atom(Null)).value);
    if read.None? {
      forall items ensures !Mounts(entries, items) { NoMounts(entries, items); }
    }
  }

  lemma NoMounts(entries: seq<Entry>, items: seq<Value>)
    requires !EffectiveValue(GetOr(entries, "tmpfs", Atom(Null))).Unsupported?
    requires TmpfsItems(CurrentField(entries, "tmpfs", Atom(Null)).value).None?
    ensures !Mounts(entries, items)
  {
    var r := EffectiveValue(GetOr(entries, "tmpfs", Atom(Null)));
    if r.Read? && r.value.Atom? && r.value.scalar != Null {
      assert TmpfsItems(r.value).None? && !r.value.scalar.Str?;
      assert items == [r.value] ==> !items[0].scalar.Str?;
    }
  }

  lemma TmpfsRefused(entries: seq<Entry>)
    requires !EffectiveValue(GetOr(entries, "tmpfs", Atom(Null))).Unsupported?
    ensures MutateService(entries, AddTmpfs) == Err(InvalidTmpfs) <==> Unreadable(AddTmpfs, entries)
    ensures MutateService(entries, AddTmpfs) == Err(AlreadySatisfied) <==> Answered(AddTmpfs, entries)
  {
    MountsRead(entries);
    var read := TmpfsItems(CurrentField(entries, "tmpfs", Atom(Null)).value);
    if read.Some? {
      CountIsMultiset(read.value);
      assert Mounts(entries, read.value);
      if Answered(AddTmpfs, entries) {
        var items :| Mounts(entries, items) && multiset(items)[Atom(Str("/tmp"))] == 1;
        MountsUnique(entries, items, read.value);
      }
    }
  }

  lemma SocketsRefused(entries: seq<Entry>)
    requires !EffectiveValue(GetOr(entries, "volumes", Atom(Null))).Unsupported?
    ensures MutateService(entries, RemoveDockerSocket) == Err(InvalidVolumes) <==> Unreadable(RemoveDockerSocket, entries)
    ensures MutateService(entries, RemoveDockerSocket) == Err(AlreadySatisfied) <==> Answered(RemoveDockerSocket, entries)
  {
    var current := CurrentField(entries, "volumes", Atom(Null)).value;
    if current.List? {
      assert Volumes(entries, current.items);
      assert Answered(RemoveDockerSocket, entries) <==> forall v :: v in current.items ==> !IsSocketBind(v);
    }
  }

  /** A mutation is refused exactly for a tag that cannot be read, a value that cannot be read, or nothing to do. */
  lemma RefusedIff(entries: seq<Entry>, kind: MutationType)
    ensures var r := EffectiveValue(GetOr(entries, KeyOf(kind), DefaultOf(kind)));
            && (MutateService(entries, kind) == Err(TagNotSupported) <==> r.Unsupported?)
            && (!r.Unsupported? ==>
                  && (MutateService(entries, kind).Err? <==> Unreadable(kind, entries) || Answered(kind, entries))
                  && (MutateService(entries, kind) == Err(AlreadySatisfied) <==> Answered(kind, entries)))
  {
    if !EffectiveValue(GetOr(entries, KeyOf(kind), DefaultOf(kind))).Unsupported? {
      match kind
      case AddTmpfs => TmpfsRefused(entries);
      case RemoveDockerSocket => SocketsRefused(entries);
      case SetReadOnly => FlagRefused(entries, kind);
      case DropPrivileged => FlagRefused(entries, kind);
      case _ => ValueRefused(entries, kind);
    }
  }

  lemma FlagRefused(entries: seq<Entry>, kind: MutationType)
    requires kind == SetReadOnly || kind == DropPrivileged
    requires !EffectiveValue(GetOr(entries, KeyOf(kind), DefaultOf(kind))).Unsupported?
    ensures MutateService(entries, kind) == Err(AlreadySatisfied) <==> Answered(kind, entries)
    ensures MutateService(entries, kind).Err? ==> MutateService(entries, kind).error == AlreadySatisfied
  {
    var current := CurrentField(entries, KeyOf(kind), DefaultOf(kind)).value;
    assert MutateService(entries, kind) == Err(AlreadySatisfied) <==> Satisfied(kind, current);
  }

  lemma ValueRefused(entries: seq<Entry>, kind: MutationType)
    requires kind in {SetNonRoot, DropAllCaps, BridgeNetwork}
    requires !EffectiveValue(GetOr(entries, KeyOf(kind), DefaultOf(kind))).Unsupported?
    ensures MutateService(entries, kind) == Err(AlreadySatisfied) <==> Answered(kind, entries)
    ensures MutateService(entries, kind).Err? ==> MutateService(entries, kind).error == AlreadySatisfied
  {
    var current := CurrentField(entries, KeyOf(kind), DefaultOf(kind)).value;
    assert MutateService(entries, kind) == Err(AlreadySatisfied) <==> Satisfied(kind, current);
  }

  /** The mutation names a service of the document that is a mapping, with an id and without parameters. */
  predicate Requested(base: Value, m: Mutation) {
    && base.Mapping? && m.id != "" && m.service != "" && m.paramsEmpty
    && Has(base.entries, "services") && Get(base.entries, "services").Mapping?
    && Has(Get(base.entries, "services").entries, m.service)
    && Get(Get(base.entries, "services").entries, m.service).Mapping?
  }

  /** The service can be read and does not answer the mutation yet. */
  ghost predicate Accepting(entries: seq<Entry>, kind: MutationType) {
    && !EffectiveValue(GetOr(entries, KeyOf(kind), DefaultOf(kind))).Unsupported?
    && !Unreadable(kind, entries) && !Answered(kind, entries)
  }

  lemma AcceptingIs(entries: seq<Entry>, kind: MutationType)
    ensures MutateService(entries, kind).Ok? <==> Accepting(entries, kind)
  {
    RefusedIff(entries, kind);
  }

  lemma RequestIs(base: Value, m: Mutation)
    ensures CheckRequest(base, m).None? <==> Requested(base, m)
  {
  }

  /** A mutation of a document is accepted exactly when it is requested properly and its service does not refuse it. */
  lemma AppliesIff(base: Value, m: Mutation)
    ensures ApplyMutation(base, m).Ok? <==>
            Requested(base, m) && Accepting(Get(Get(base.entries, "services").entries, m.service).entries, m.kind)
  {
    RequestIs(base, m);
    if Requested(base, m) { AcceptingIs(Get(Get(base.entries, "services").entries, m.service).entries, m.kind); }
  }
}
