/** What a mutation changes, what it leaves alone, and what it does to the risk findings. */
module MutationLaws {
  import opened Basics
  import opened ComposeValues
  import opened Risk
  import opened Mutations

  // ----- editing one key of a dict

  /** The two dicts agree on every key but one. */
  ghost predicate AgreeExcept(a: seq<Entry>, b: seq<Entry>, key: string) {
    forall k :: k != key ==> Has(a, k) == Has(b, k) && (Has(a, k) ==> Get(a, k) == Get(b, k))
  }

  lemma SetEntryDistinct(entries: seq<Entry>, key: string, v: Value)
    requires Distinct(Keys(entries))
    ensures Distinct(Keys(SetEntry(entries, key, v)))
  {
    var r := SetEntry(entries, key, v);
    HasIffKey(entries, key);
    forall i, j | 0 <= i < j < |r|
      ensures Keys(r)[i] != Keys(r)[j]
    {
      if j < |entries| { assert Keys(entries)[i] != Keys(entries)[j]; }
    }
  }

  /** The other entries stay where they are. */
  lemma SetEntryElsewhere(entries: seq<Entry>, key: string, v: Value, i: nat)
    requires Distinct(Keys(entries)) && i < |entries| && entries[i].key != key
    ensures var r := SetEntry(entries, key, v); i < |r| && r[i] == entries[i]
  {
  }

  lemma SetEntryOther(entries: seq<Entry>, key: string, v: Value, k: string)
    requires Distinct(Keys(entries)) && k != key
    ensures var r := SetEntry(entries, key, v);
            Has(entries, k) == Has(r, k) && (Has(entries, k) ==> Get(entries, k) == Get(r, k))
  {
    var r := SetEntry(entries, key, v);
    SetEntryDistinct(entries, key, v);
    if Has(entries, k) {
      SetEntryElsewhere(entries, key, v, IndexOf(entries, k));
      GetAt(r, IndexOf(entries, k));
    }
    if Has(r, k) {
      var j := IndexOf(r, k);
      assert j < |entries| && entries[j].key == k;
      SetEntryElsewhere(entries, key, v, j);
      GetAt(entries, j);
    }
  }

  lemma SetEntryAgrees(entries: seq<Entry>, key: string, v: Value)
    requires ValidEntries(entries)
    ensures var r := SetEntry(entries, key, v);
            && Has(r, key) && Get(r, key) == v
            && AgreeExcept(entries, r, key)
            && Distinct(Keys(r))
            && (Valid(v) ==> ValidEntries(r))
  {
    var r := SetEntry(entries, key, v);
    SetEntryDistinct(entries, key, v);
    GetAt(r, if Has(entries, key) then IndexOf(entries, key) else |entries|);
    forall k | k != key
      ensures Has(entries, k) == Has(r, k) && (Has(entries, k) ==> Get(entries, k) == Get(r, k))
    {
      SetEntryOther(entries, key, v, k);
    }
  }

  lemma DropEntryAgrees(entries: seq<Entry>, key: string)
    requires ValidEntries(entries) && Has(entries, key)
    ensures var r := DropEntry(entries, key);
            !Has(r, key) && AgreeExcept(entries, r, key) && ValidEntries(r)
  {
    var r, at := DropEntry(entries, key), IndexOf(entries, key);
    forall i | 0 <= i < |r|
      ensures r[i] == entries[if i < at then i else i + 1] && r[i].key != key
    {
      assert Keys(entries)[if i < at then i else i + 1] != Keys(entries)[at];
    }
    forall i, j | 0 <= i < j < |r|
      ensures Keys(r)[i] != Keys(r)[j]
    {
      assert Keys(entries)[if i < at then i else i + 1] != Keys(entries)[if j < at then j else j + 1];
    }
    forall k | k != key
      ensures Has(entries, k) == Has(r, k) && (Has(entries, k) ==> Get(entries, k) == Get(r, k))
    {
      if Has(entries, k) {
        var i := IndexOf(entries, k);
        GetAt(r, if i < at then i else i - 1);
      }
      if Has(r, k) {
        var i := IndexOf(r, k);
        GetAt(entries, if i < at then i else i + 1);
      }
    }
  }

  // ----- one service

  /** The value a mutation writes, None when it deletes the key. */
  function Written(entries: seq<Entry>, kind: MutationType): Option<Value>
    requires MutateService(entries, kind).Ok?
  {
    var current := CurrentField(entries, KeyOf(kind), DefaultOf(kind)).value;
    match kind
    case SetNonRoot => Some(NON_ROOT)
    case DropAllCaps => Some(List(None, ALL_CAPS))
    case SetReadOnly => Some(Atom(Bool(true)))
    case AddTmpfs => Some(List(None, WithoutTmp(TmpfsItems(current).value) + [TMP]))
    case DropPrivileged => Some(Atom(Bool(false)))
    case RemoveDockerSocket =>
      Some(List(TagOf(GetOr(entries, "volumes", Atom(Null))), WithoutSockets(current.items)))
    case BridgeNetwork => None
  }

  /** A mutation writes its own key and touches no other. */
  lemma MutateServiceFrame(entries: seq<Entry>, kind: MutationType)
    requires ValidEntries(entries) && MutateService(entries, kind).Ok?
    ensures var r := MutateService(entries, kind).value;
            && ValidEntries(r)
            && AgreeExcept(entries, r, KeyOf(kind))
            && (Has(r, KeyOf(kind)) <==> Written(entries, kind).Some?)
            && (Has(r, KeyOf(kind)) ==> Get(r, KeyOf(kind)) == Written(entries, kind).value)
  {
    if kind.BridgeNetwork? {
      DropEntryAgrees(entries, "network_mode");
    } else {
      WrittenValid(entries, kind);
      SetEntryAgrees(entries, KeyOf(kind), Written(entries, kind).value);
    }
  }

  lemma WrittenValid(entries: seq<Entry>, kind: MutationType)
    requires ValidEntries(entries) && MutateService(entries, kind).Ok?
    ensures Written(entries, kind).Some? ==> Valid(Written(entries, kind).value)
  {
    if kind.RemoveDockerSocket? {
      var current := CurrentField(entries, "volumes", Atom(Null)).value;
      assert current.List? && Valid(current) by {
        if Has(entries, "volumes") { assert Valid(entries[IndexOf(entries, "volumes")].value); }
      }
      SublistValid(current.items);
    } else if kind.AddTmpfs? {
      var current := CurrentField(entries, "tmpfs", Atom(Null)).value;
      TmpfsAtoms(TmpfsItems(current).value);
    }
  }

  lemma {:induction false} SublistValid(items: seq<Value>)
    requires forall i :: 0 <= i < |items| ==> Valid(items[i])
    ensures forall i :: 0 <= i < |WithoutSockets(items)| ==> Valid(WithoutSockets(items)[i])
  {
    if items != [] {
      SublistValid(items[..|items| - 1]);
    }
  }

  lemma {:induction false} TmpfsAtoms(items: seq<Value>)
    requires forall i :: 0 <= i < |items| ==> items[i].Atom? && items[i].scalar.Str?
    ensures var r := WithoutTmp(items);
            CountTmp(r) == 0 && forall i :: 0 <= i < |r| ==> r[i].Atom? && r[i].scalar.Str?
  {
    if items != [] {
      TmpfsAtoms(items[..|items| - 1]);
      var r, init := WithoutTmp(items), WithoutTmp(items[..|items| - 1]);
      if items[|items| - 1] == TMP {
        assert r == init;
      } else {
        assert r[..|r| - 1] == init;
      }
    }
  }

  /** Whether a mutation is accepted depends on the field it reads only. */
  predicate Accepts(kind: MutationType, current: Result<Value, MutationFailure>) {
    && current.Ok? && !Satisfied(kind, current.value)
    && (kind.AddTmpfs? ==> TmpfsItems(current.value).Some?)
    && (kind.RemoveDockerSocket? ==> current.value.List?)
  }

  lemma OkByCurrent(entries: seq<Entry>, kind: MutationType)
    ensures MutateService(entries, kind).Ok? <==> Accepts(kind, CurrentField(entries, KeyOf(kind), DefaultOf(kind)))
  {
  }

  /** The key then holds what was written, or nothing. */
  lemma CurrentAfter(entries: seq<Entry>, kind: MutationType)
    requires ValidEntries(entries) && MutateService(entries, kind).Ok?
    ensures var r := MutateService(entries, kind).value;
            GetOr(r, KeyOf(kind), DefaultOf(kind)) ==
              match Written(entries, kind) case Some(v) => v case None => DefaultOf(kind)
  {
    MutateServiceFrame(entries, kind);
  }

  lemma ScalarSatisfies(entries: seq<Entry>, kind: MutationType)
    requires kind in {SetNonRoot, DropAllCaps, SetReadOnly, DropPrivileged, BridgeNetwork}
    requires var now := GetOr(entries, KeyOf(kind), DefaultOf(kind));
             now == match kind
                    case SetNonRoot => NON_ROOT
                    case DropAllCaps => List(None, ALL_CAPS)
                    case SetReadOnly => Atom(Bool(true))
                    case DropPrivileged => Atom(Bool(false))
                    case _ => DefaultOf(kind)
    ensures MutateService(entries, kind) == Err(AlreadySatisfied)
  {
  }

  /** Afterwards the mutation asks for what is already there. */
  lemma MutationSatisfies(entries: seq<Entry>, kind: MutationType)
    requires ValidEntries(entries) && MutateService(entries, kind).Ok?
    ensures var r := MutateService(entries, kind).value;
            MutateService(r, kind) == Err(AlreadySatisfied)
  {
    match kind
    case AddTmpfs => TmpfsSatisfies(entries);
    case RemoveDockerSocket => SocketsSatisfy(entries);
    case _ =>
      CurrentAfter(entries, kind);
      ScalarSatisfies(MutateService(entries, kind).value, kind);
  }

  lemma TmpfsSatisfies(entries: seq<Entry>)
    requires ValidEntries(entries) && MutateService(entries, AddTmpfs).Ok?
    ensures MutateService(MutateService(entries, AddTmpfs).value, AddTmpfs) == Err(AlreadySatisfied)
  {
    MutateServiceFrame(entries, AddTmpfs);
    var items := TmpfsItems(CurrentField(entries, "tmpfs", Atom(Null)).value).value;
    TmpfsAtoms(items);
    var written := WithoutTmp(items) + [TMP];
    assert written[..|written| - 1] == WithoutTmp(items);
    assert TmpfsItems(List(None, written)) == Some(written);
  }

  lemma SocketsSatisfy(entries: seq<Entry>)
    requires ValidEntries(entries) && MutateService(entries, RemoveDockerSocket).Ok?
    ensures MutateService(MutateService(entries, RemoveDockerSocket).value, RemoveDockerSocket) == Err(AlreadySatisfied)
  {
    MutateServiceFrame(entries, RemoveDockerSocket);
    NoSocketsLeft(CurrentField(entries, "volumes", Atom(Null)).value.items);
  }

  lemma {:induction false} NoSocketsLeft(items: seq<Value>)
    ensures forall i :: 0 <= i < |WithoutSockets(items)| ==> !IsSocketBind(WithoutSockets(items)[i])
  {
    if items != [] {
      NoSocketsLeft(items[..|items| - 1]);
    }
  }

  // ----- the whole document

  function ServiceOf(doc: Value, m: Mutation): Value
    requires CheckRequest(doc, m).None?
  {
    Get(Get(doc.entries, "services").entries, m.service)
  }

  /** One key of one service changes: not the marks, not the other services, not what is around them,
      not the order of the keys anywhere above it. */
  lemma ApplyMutationFrame(base: Value, m: Mutation)
    requires Valid(base) && ApplyMutation(base, m).Ok?
    ensures var c := ApplyMutation(base, m).value;
            && Valid(c) && CheckRequest(c, m).None? && c.mark == base.mark
            && Keys(c.entries) == Keys(base.entries)
            && AgreeExcept(base.entries, c.entries, "services")
            && var was, now := Get(base.entries, "services"), Get(c.entries, "services");
               && now.mark == was.mark
               && Keys(now.entries) == Keys(was.entries)
               && AgreeExcept(was.entries, now.entries, m.service)
               && ServiceOf(c, m).mark == ServiceOf(base, m).mark
               && MutateService(ServiceOf(base, m).entries, m.kind) == Ok(ServiceOf(c, m).entries)
               && AgreeExcept(ServiceOf(base, m).entries, ServiceOf(c, m).entries, KeyOf(m.kind))
  {
    var services := Get(base.entries, "services");
    var service := ServiceOf(base, m);
    PartsValid(base, m);
    MutateServiceFrame(service.entries, m.kind);
    var target := service.(entries := MutateService(service.entries, m.kind).value);
    ValueSet(services, m.service, target);
    ValueSet(base, "services", WithEntry(services, m.service, target));
  }

  lemma PartsValid(base: Value, m: Mutation)
    requires Valid(base) && CheckRequest(base, m).None?
    ensures Valid(Get(base.entries, "services")) && Valid(ServiceOf(base, m))
  {
    var services := Get(base.entries, "services");
    assert Valid(base.entries[IndexOf(base.entries, "services")].value);
    assert Valid(services.entries[IndexOf(services.entries, m.service)].value);
  }

  /** The mapping with one entry put in its place. */
  function WithEntry(v: Value, key: string, entry: Value): Value
    requires v.Mapping?
  {
    v.(entries := SetEntry(v.entries, key, entry))
  }

  lemma ValueSet(v: Value, key: string, entry: Value)
    requires v.Mapping? && Valid(v) && Valid(entry) && Has(v.entries, key)
    ensures var r := WithEntry(v, key, entry);
            && Valid(r) && r.mark == v.mark && Keys(r.entries) == Keys(v.entries)
            && Has(r.entries, key) && Get(r.entries, key) == entry && AgreeExcept(v.entries, r.entries, key)
  {
    SetEntryAgrees(v.entries, key, entry);
    SetEntryKeys(v.entries, key, entry);
  }

  lemma SetEntryKeys(entries: seq<Entry>, key: string, v: Value)
    requires Has(entries, key)
    ensures Keys(SetEntry(entries, key, v)) == Keys(entries)
  {
  }
}
