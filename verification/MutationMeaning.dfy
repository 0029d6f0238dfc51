/** Mutations act on what a document means: key order makes no difference to them. */
module MutationMeaning {
  import opened Basics
  import opened ComposeValues
  import opened Risk
  import opened Mutations
  import opened MutationLaws

  lemma ReadingMeaning(a: Value, b: Value)
    requires Meaning(a) == Meaning(b)
    ensures EffectiveValue(a).Read? <==> EffectiveValue(b).Read?
    ensures EffectiveValue(a).Reset? <==> EffectiveValue(b).Reset?
    ensures EffectiveValue(a).Read? ==> Meaning(EffectiveValue(a).value) == Meaning(EffectiveValue(b).value)
  {
  }

  lemma AtomMeaning(a: Value, b: Value)
    requires Meaning(a) == Meaning(b)
    ensures a.Atom? <==> b.Atom?
    ensures a.Atom? ==> a == b
  {
  }

  lemma GetOrMeaning(a: seq<Entry>, b: seq<Entry>, key: string, default: Value)
    requires MeaningFields(a) == MeaningFields(b)
    ensures Has(a, key) <==> Has(b, key)
    ensures Meaning(GetOr(a, key, default)) == Meaning(GetOr(b, key, default))
  {
    assert key in MeaningFields(a) <==> key in MeaningFields(b);
    if Has(a, key) {
      assert MeaningFields(a)[key] == MeaningFields(b)[key];
    }
  }

  lemma FieldAtomMeaning(a: seq<Entry>, b: seq<Entry>, key: string)
    requires MeaningFields(a) == MeaningFields(b)
    ensures Field(a, key).Read? && Field(a, key).value.Atom? ==> Field(b, key) == Field(a, key)
    ensures Field(b, key).Read? && Field(b, key).value.Atom? ==> Field(b, key) == Field(a, key)
  {
    GetOrMeaning(a, b, key, Atom(Null));
    ReadingMeaning(GetOr(a, key, Atom(Null)), GetOr(b, key, Atom(Null)));
    if Field(a, key).Read? {
      AtomMeaning(Field(a, key).value, Field(b, key).value);
    }
  }

  lemma LongBindMeaning(v: Value, w: Value)
    requires Meaning(v) == Meaning(w) && v.Mapping? && TagOf(v).None?
    ensures RecognizedHostBind(v) == RecognizedHostBind(w)
  {
    FieldAtomMeaning(v.entries, w.entries, "type");
    FieldAtomMeaning(v.entries, w.entries, "source");
    FieldAtomMeaning(v.entries, w.entries, "read_only");
  }

  /** A bind is read from the effective value. */
  lemma BindOfEffective(a: Value)
    requires EffectiveValue(a).Read? && EffectiveValue(a).value.Mapping?
    ensures RecognizedHostBind(a) == RecognizedHostBind(Mapping(None, EffectiveValue(a).value.entries))
  {
  }

  lemma BindMeaning(a: Value, b: Value)
    requires Meaning(a) == Meaning(b)
    ensures RecognizedHostBind(a) == RecognizedHostBind(b)
  {
    ReadingMeaning(a, b);
    if EffectiveValue(a).Read? {
      var v, w := EffectiveValue(a).value, EffectiveValue(b).value;
      AtomMeaning(v, w);
      if v.Mapping? {
        BindOfEffective(a);
        BindOfEffective(b);
        LongBindMeaning(Mapping(None, v.entries), Mapping(None, w.entries));
      }
    }
  }

  lemma ItemsMeaningInit(a: seq<Value>, b: seq<Value>)
    requires MeaningItems(a) == MeaningItems(b) && a != []
    ensures |a| == |b|
    ensures MeaningItems(a[..|a| - 1]) == MeaningItems(b[..|b| - 1])
    ensures Meaning(a[|a| - 1]) == Meaning(b[|b| - 1])
  {
    assert |MeaningItems(a)| == |a| && |MeaningItems(b)| == |b|;
    var n := |a| - 1;
    assert MeaningItems(a)[n] == Meaning(a[n]) && MeaningItems(b)[n] == Meaning(b[n]);
    assert MeaningItems(a)[..n] == MeaningItems(a[..n]);
    assert MeaningItems(b)[..n] == MeaningItems(b[..n]);
  }

  lemma SocketAtMeaning(a: seq<Value>, b: seq<Value>, i: nat)
    requires MeaningItems(a) == MeaningItems(b) && i < |a|
    ensures i < |b| && (IsSocketBind(a[i]) <==> IsSocketBind(b[i]))
  {
    assert |MeaningItems(a)| == |a| && |MeaningItems(b)| == |b|;
    assert MeaningItems(a)[i] == Meaning(a[i]) && MeaningItems(b)[i] == Meaning(b[i]);
    BindMeaning(a[i], b[i]);
  }

  lemma SocketFreeMeaning(a: seq<Value>, b: seq<Value>)
    requires MeaningItems(a) == MeaningItems(b)
    ensures (forall i :: 0 <= i < |a| ==> !IsSocketBind(a[i])) ==> forall i :: 0 <= i < |b| ==> !IsSocketBind(b[i])
  {
    assert |MeaningItems(a)| == |a| && |MeaningItems(b)| == |b|;
    forall i | 0 <= i < |b| ensures IsSocketBind(b[i]) ==> IsSocketBind(a[i]) {
      SocketAtMeaning(b, a, i);
    }
  }

  lemma {:induction false} SocketsMeaning(a: seq<Value>, b: seq<Value>)
    requires MeaningItems(a) == MeaningItems(b)
    ensures MeaningItems(WithoutSockets(a)) == MeaningItems(WithoutSockets(b))
  {
    if a != [] {
      var n := |a| - 1;
      ItemsMeaningInit(a, b);
      SocketsMeaning(a[..n], b[..n]);
      SocketAtMeaning(a, b, n);
      MeaningSnoc(WithoutSockets(a[..n]), a[n]);
      MeaningSnoc(WithoutSockets(b[..n]), b[n]);
      if IsSocketBind(a[n]) {
        assert WithoutSockets(a) == WithoutSockets(a[..n]) && WithoutSockets(b) == WithoutSockets(b[..n]);
      }
    } else {
      assert |MeaningItems(b)| == 0;
    }
  }

  lemma MeaningSnoc(items: seq<Value>, v: Value)
    ensures MeaningItems(items + [v]) == MeaningItems(items) + [Meaning(v)]
  {
    assert (items + [v])[..|items|] == items;
  }

  lemma {:induction false} AtomItemsMeaning(a: seq<Value>, b: seq<Value>)
    requires MeaningItems(a) == MeaningItems(b)
    requires forall i :: 0 <= i < |a| ==> a[i].Atom?
    ensures a == b
  {
    assert |MeaningItems(a)| == |a| && |MeaningItems(b)| == |b|;
    forall i | 0 <= i < |a| ensures a[i] == b[i] {
      assert MeaningItems(a)[i] == MeaningItems(b)[i];
      AtomMeaning(a[i], b[i]);
    }
  }

  lemma TmpfsMeaning(a: Value, b: Value)
    requires Meaning(a) == Meaning(b)
    ensures TmpfsItems(a) == TmpfsItems(b)
  {
    AtomMeaning(a, b);
    if a.List? {
      if TmpfsItems(a).Some? { AtomItemsMeaning(a.items, b.items); }
      if TmpfsItems(b).Some? { AtomItemsMeaning(b.items, a.items); }
    }
  }

  lemma SatisfiedMeaning(kind: MutationType, a: Value, b: Value)
    requires Meaning(a) == Meaning(b)
    ensures Satisfied(kind, a) <==> Satisfied(kind, b)
  {
    AtomMeaning(a, b);
    match kind
    case DropAllCaps =>
      if EqualsAllCaps(a) { AtomItemsMeaning(a.items, b.items); }
      if EqualsAllCaps(b) { AtomItemsMeaning(b.items, a.items); }
    case AddTmpfs => TmpfsMeaning(a, b);
    case RemoveDockerSocket => if a.List? { SocketFreeMeaning(a.items, b.items); SocketFreeMeaning(b.items, a.items); }
    case _ =>
  }

  lemma CurrentMeaning(a: seq<Entry>, b: seq<Entry>, kind: MutationType)
    requires MeaningFields(a) == MeaningFields(b)
    ensures var x, y := CurrentField(a, KeyOf(kind), DefaultOf(kind)), CurrentField(b, KeyOf(kind), DefaultOf(kind));
            && (x.Ok? <==> y.Ok?) && (x.Err? ==> x == y)
            && (x.Ok? ==> Meaning(x.value) == Meaning(y.value) &&
                          (x.value.List? <==> y.value.List?) && (Satisfied(kind, x.value) <==> Satisfied(kind, y.value)) &&
                          TmpfsItems(x.value) == TmpfsItems(y.value))
  {
    GetOrMeaning(a, b, KeyOf(kind), DefaultOf(kind));
    ReadingMeaning(GetOr(a, KeyOf(kind), DefaultOf(kind)), GetOr(b, KeyOf(kind), DefaultOf(kind)));
    var x, y := CurrentField(a, KeyOf(kind), DefaultOf(kind)), CurrentField(b, KeyOf(kind), DefaultOf(kind));
    if x.Ok? {
      SatisfiedMeaning(kind, x.value, y.value);
      TmpfsMeaning(x.value, y.value);
    }
  }

  lemma WrittenMeaning(a: seq<Entry>, b: seq<Entry>, kind: MutationType)
    requires MeaningFields(a) == MeaningFields(b)
    requires MutateService(a, kind).Ok? && MutateService(b, kind).Ok?
    ensures Written(a, kind).Some? <==> Written(b, kind).Some?
    ensures Written(a, kind).Some? ==> Meaning(Written(a, kind).value) == Meaning(Written(b, kind).value)
  {
    CurrentMeaning(a, b, kind);
    match kind
    case RemoveDockerSocket => SocketsWrittenMeaning(a, b);
    case AddTmpfs => assert Written(a, kind) == Written(b, kind);
    case _ =>
  }

  lemma SocketsWritten(a: seq<Entry>)
    requires MutateService(a, RemoveDockerSocket).Ok?
    ensures var current := CurrentField(a, "volumes", Atom(Null));
            && current.Ok? && current.value.List?
            && Written(a, RemoveDockerSocket) ==
                 Some(List(TagOf(GetOr(a, "volumes", Atom(Null))), WithoutSockets(current.value.items)))
  {
  }

  lemma SameTag(a: Value, b: Value)
    requires Meaning(a) == Meaning(b)
    ensures TagOf(a) == TagOf(b)
  {
  }

  lemma SocketsWrittenMeaning(a: seq<Entry>, b: seq<Entry>)
    requires MeaningFields(a) == MeaningFields(b)
    requires MutateService(a, RemoveDockerSocket).Ok? && MutateService(b, RemoveDockerSocket).Ok?
    ensures Meaning(Written(a, RemoveDockerSocket).value) == Meaning(Written(b, RemoveDockerSocket).value)
  {
    GetOrMeaning(a, b, "volumes", Atom(Null));
    SameTag(GetOr(a, "volumes", Atom(Null)), GetOr(b, "volumes", Atom(Null)));
    CurrentMeaning(a, b, RemoveDockerSocket);
    SocketsWritten(a);
    SocketsWritten(b);
    SocketsMeaning(CurrentField(a, "volumes", Atom(Null)).value.items, CurrentField(b, "volumes", Atom(Null)).value.items);
  }

  lemma MutateServiceMeaning(a: seq<Entry>, b: seq<Entry>, kind: MutationType)
    requires ValidEntries(a) && ValidEntries(b) && MeaningFields(a) == MeaningFields(b)
    ensures MutateService(a, kind).Ok? <==> MutateService(b, kind).Ok?
    ensures MutateService(a, kind).Err? ==> MutateService(a, kind) == MutateService(b, kind)
    ensures MutateService(a, kind).Ok? ==>
              MeaningFields(MutateService(a, kind).value) == MeaningFields(MutateService(b, kind).value)
  {
    CurrentMeaning(a, b, kind);
    if MutateService(a, kind).Ok? {
      WrittenMeaning(a, b, kind);
      MutateServiceFrame(a, kind);
      MutateServiceFrame(b, kind);
      FieldsMeaningExcept(a, b, MutateService(a, kind).value, MutateService(b, kind).value, KeyOf(kind));
    }
  }

  /** Equal before, edited at one key to equal values: equal after. */
  lemma FieldsMeaningExcept(a: seq<Entry>, b: seq<Entry>, a': seq<Entry>, b': seq<Entry>, key: string)
    requires MeaningFields(a) == MeaningFields(b)
    requires AgreeExcept(a, a', key) && AgreeExcept(b, b', key)
    requires Has(a', key) == Has(b', key)
    requires Has(a', key) ==> Meaning(Get(a', key)) == Meaning(Get(b', key))
    ensures MeaningFields(a') == MeaningFields(b')
  {
    var x, y := MeaningFields(a'), MeaningFields(b');
    forall k
      ensures k in x <==> k in y
      ensures k in x ==> x[k] == y[k]
    {
      FieldMeaningExcept(a, b, a', b', key, k);
    }
    MapsEqual(x, y);
  }

  lemma FieldMeaningExcept(a: seq<Entry>, b: seq<Entry>, a': seq<Entry>, b': seq<Entry>, key: string, k: string)
    requires MeaningFields(a) == MeaningFields(b)
    requires AgreeExcept(a, a', key) && AgreeExcept(b, b', key)
    requires Has(a', key) == Has(b', key)
    requires Has(a', key) ==> Meaning(Get(a', key)) == Meaning(Get(b', key))
    ensures k in MeaningFields(a') <==> k in MeaningFields(b')
    ensures k in MeaningFields(a') ==> MeaningFields(a')[k] == MeaningFields(b')[k]
  {
    FieldMeans(a', k);
    FieldMeans(b', k);
    if k != key {
      FieldMeans(a, k);
      FieldMeans(b, k);
    }
  }

  /** What a key of a mapping means, if it is there. */
  lemma FieldMeans(entries: seq<Entry>, k: string)
    ensures Has(entries, k) <==> k in MeaningFields(entries)
    ensures Has(entries, k) ==> MeaningFields(entries)[k] == Meaning(Get(entries, k))
  {
  }

  lemma RequestMeaning(a: Value, b: Value, m: Mutation)
    requires Meaning(a) == Meaning(b)
    ensures CheckRequest(a, m) == CheckRequest(b, m)
    ensures CheckRequest(a, m).None? ==>
              && Meaning(Get(a.entries, "services")) == Meaning(Get(b.entries, "services"))
              && Meaning(ServiceOf(a, m)) == Meaning(ServiceOf(b, m))
  {
    if a.Mapping? && b.Mapping? {
      GetOrMeaning(a.entries, b.entries, "services", Atom(Null));
      var s, t := GetOr(a.entries, "services", Atom(Null)), GetOr(b.entries, "services", Atom(Null));
      if s.Mapping? {
        GetOrMeaning(s.entries, t.entries, m.service, Atom(Null));
      }
    }
  }

  /** Documents that differ in key order only are accepted alike and mutated alike. */
  lemma ApplyMutationMeaning(a: Value, b: Value, m: Mutation)
    requires Valid(a) && Valid(b) && Meaning(a) == Meaning(b)
    ensures ApplyMutation(a, m).Ok? <==> ApplyMutation(b, m).Ok?
    ensures ApplyMutation(a, m).Err? ==> ApplyMutation(a, m) == ApplyMutation(b, m)
    ensures ApplyMutation(a, m).Ok? ==> Meaning(ApplyMutation(a, m).value) == Meaning(ApplyMutation(b, m).value)
  {
    RequestMeaning(a, b, m);
    if CheckRequest(a, m).None? {
      ServiceValid(a, m);
      ServiceValid(b, m);
      MutateServiceMeaning(ServiceOf(a, m).entries, ServiceOf(b, m).entries, m.kind);
      if ApplyMutation(a, m).Ok? {
        ApplyMutationFrame(a, m);
        ApplyMutationFrame(b, m);
        var c, d := ApplyMutation(a, m).value, ApplyMutation(b, m).value;
        FieldsMeaningExcept(Get(a.entries, "services").entries, Get(b.entries, "services").entries,
                            Get(c.entries, "services").entries, Get(d.entries, "services").entries, m.service);
        FieldsMeaningExcept(a.entries, b.entries, c.entries, d.entries, "services");
      }
    }
  }

  lemma ServiceValid(doc: Value, m: Mutation)
    requires Valid(doc) && CheckRequest(doc, m).None?
    ensures Valid(Get(doc.entries, "services")) && Valid(ServiceOf(doc, m))
  {
    assert Valid(doc.entries[IndexOf(doc.entries, "services")].value);
    var services := Get(doc.entries, "services");
    assert Valid(services.entries[IndexOf(services.entries, m.service)].value);
  }

  /** A mutation that is accepted changes what the document means, in the one key it owns. */
  lemma ApplyMutationChanges(base: Value, m: Mutation)
    requires Valid(base) && ApplyMutation(base, m).Ok?
    ensures Meaning(ApplyMutation(base, m).value) != Meaning(base)
    ensures ApplyMutation(ApplyMutation(base, m).value, m) == Err(AlreadySatisfied)
  {
    var c := ApplyMutation(base, m).value;
    ApplyMutationFrame(base, m);
    ServiceValid(base, m);
    MutationSatisfies(ServiceOf(base, m).entries, m.kind);
    if Meaning(c) == Meaning(base) {
      ApplyMutationMeaning(base, c, m);
    }
  }
}
