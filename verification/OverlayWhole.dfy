/** The exactness of the override, for whole documents. */
module OverlayWhole {
  import opened Basics
  import opened ComposeValues
  import opened ComposeMerge
  import opened Overlay
  import opened OverlayFaithful

  // ----- inside a document that was admitted, no comparison can fail

  lemma AdmittedComparable(doc: Value)
    requires Valid(doc) && Canonicalisable(doc)
    ensures AllComparable(doc.entries)
    ensures AllComparable(ServicesOf(doc))
    ensures forall i :: 0 <= i < |ServicesOf(doc)| && ServicesOf(doc)[i].value.Mapping? ==>
              AllComparable(ServicesOf(doc)[i].value.entries)
  {
    forall i | 0 <= i < |doc.entries|
      ensures Comparable(doc.entries[i].value)
    {
      GetAt(doc.entries, i);
      ChildComparable(Mapping(None, doc.entries), doc.entries[i].key);
    }
    var services := ServicesOf(doc);
    ServicesValid(doc);
    if services != [] {
      NestedComparable(doc.entries[IndexOf(doc.entries, "services")].value);
      forall i | 0 <= i < |services| && services[i].value.Mapping?
        ensures AllComparable(services[i].value.entries)
      {
        NestedComparable(services[i].value);
      }
    }
  }

  lemma {:induction false} ChangedAmongExact(was: seq<Entry>, now: seq<Entry>)
    requires ValidEntries(was) && ValidEntries(now) && AllComparable(was) && AllComparable(now)
    requires forall i :: 0 <= i < |was| ==> Has(now, was[i].key)
    ensures ChangedAmong(was, now).Ok?
    ensures Distinct(ChangedAmong(was, now).value)
    ensures forall k :: k in ChangedAmong(was, now).value <==>
              Has(was, k) && Has(now, k) && !Same(Get(was, k), Get(now, k))
  {
    if was != [] {
      var n := |was| - 1;
      DistinctInit(was);
      ChangedAmongExact(was[..n], now);
      ChangedStep(was, now);
      var before := ChangedAmong(was[..n], now).value;
      assert was[n].key !in before;
      forall k ensures k in ChangedAmong(was, now).value <==> Changed(was, now, k) { ChangedMember(was, now, before, k); }
    }
  }

  /** The service is in both and its canonical trees differ. */
  predicate Changed(was: seq<Entry>, now: seq<Entry>, k: string) {
    Has(was, k) && Has(now, k) && !Same(Get(was, k), Get(now, k))
  }

  lemma ChangedMember(was: seq<Entry>, now: seq<Entry>, before: seq<string>, k: string)
    requires was != [] && Distinct(Keys(was)) && Has(now, was[|was| - 1].key)
    requires k in before <==> Changed(was[..|was| - 1], now, k)
    ensures var last := was[|was| - 1];
            k in before + (if Same(last.value, Get(now, last.key)) then [] else [last.key]) <==> Changed(was, now, k)
  {
    DistinctInit(was);
    HasLast(was, k);
  }

  lemma HasLast(entries: seq<Entry>, k: string)
    requires entries != []
    ensures var n := |entries| - 1;
            && (Has(entries, k) <==> Has(entries[..n], k) || k == entries[n].key)
            && (k == entries[n].key ==> Get(entries, k) == entries[n].value)
            && (k != entries[n].key && Has(entries, k) ==> Get(entries, k) == Get(entries[..n], k))
  {
  }

  lemma ChangedStep(was: seq<Entry>, now: seq<Entry>)
    requires was != [] && ValidEntries(was) && ValidEntries(now) && AllComparable(was) && AllComparable(now)
    requires forall i :: 0 <= i < |was| ==> Has(now, was[i].key)
    requires ChangedAmong(was[..|was| - 1], now).Ok?
    ensures var n := |was| - 1;
            ChangedAmong(was, now) == Ok(ChangedAmong(was[..n], now).value +
              if Same(was[n].value, Get(now, was[n].key)) then [] else [was[n].key])
  {
    var n := |was| - 1;
    CompareIsSame(was[n].value, Get(now, was[n].key));
  }

  /** The entry may differ, or it does not. */
  predicate SameOutside(e: Entry, candidate: seq<Entry>)
    requires Has(candidate, e.key)
  {
    e.key != "services" ==> Same(e.value, Get(candidate, e.key))
  }

  predicate KeysKept(base: seq<Entry>, candidate: seq<Entry>) {
    forall i :: 0 <= i < |base| ==> Has(candidate, base[i].key)
  }

  lemma OutsideStep(base: seq<Entry>, candidate: seq<Entry>)
    requires ValidEntries(base) && ValidEntries(candidate) && AllComparable(base) && AllComparable(candidate)
    requires base != [] && KeysKept(base, candidate)
    ensures var n := |base| - 1;
            var before := OutsideServices(base[..n], candidate);
            OutsideServices(base, candidate) ==
              if before.Err? then before else if SameOutside(base[n], candidate) then Ok(()) else Err(ChangesOutsideServices)
  {
    var last := base[|base| - 1];
    CompareIsSame(last.value, Get(candidate, last.key));
  }

  predicate AllSameOutside(base: seq<Entry>, candidate: seq<Entry>)
    requires KeysKept(base, candidate)
  {
    forall i :: 0 <= i < |base| ==> SameOutside(base[i], candidate)
  }

  lemma AllSameStep(base: seq<Entry>, candidate: seq<Entry>)
    requires base != [] && KeysKept(base, candidate)
    ensures var n := |base| - 1;
            && KeysKept(base[..n], candidate)
            && (AllSameOutside(base, candidate) <==> AllSameOutside(base[..n], candidate) && SameOutside(base[n], candidate))
  {
    var n := |base| - 1;
    assert forall i :: 0 <= i < n ==> base[..n][i] == base[i];
  }

  lemma ValidInit(base: seq<Entry>)
    requires base != [] && ValidEntries(base)
    ensures ValidEntries(base[..|base| - 1])
  {
    DistinctInit(base);
  }

  lemma ComparableInit(base: seq<Entry>)
    requires base != [] && AllComparable(base)
    ensures AllComparable(base[..|base| - 1])
  {
  }

  lemma {:induction false} OutsideServicesSame(base: seq<Entry>, candidate: seq<Entry>)
    requires ValidEntries(base) && ValidEntries(candidate) && AllComparable(base) && AllComparable(candidate)
    requires KeysKept(base, candidate)
    ensures OutsideServices(base, candidate) == if AllSameOutside(base, candidate) then Ok(()) else Err(ChangesOutsideServices)
  {
    if base != [] {
      ValidInit(base);
      ComparableInit(base);
      AllSameStep(base, candidate);
      OutsideServicesSame(base[..|base| - 1], candidate);
      OutsideStep(base, candidate);
    }
  }

  /** The changed services are exactly the ones whose canonical trees differ. */
  lemma ChangedServicesExact(base: Value, candidate: Value)
    requires Valid(base) && Valid(candidate) && CheckFrame(base, candidate).Ok?
    ensures ChangedServices(base, candidate).Ok?
    ensures Distinct(ChangedServices(base, candidate).value)
    ensures var was, now := ServicesOf(base), ServicesOf(candidate);
            forall k :: k in ChangedServices(base, candidate).value <==>
              Has(was, k) && Has(now, k) && !Same(Get(was, k), Get(now, k))
  {
    AdmittedComparable(base);
    AdmittedComparable(candidate);
    ServicesValid(base);
    ServicesValid(candidate);
    ChangedAmongExact(ServicesOf(base), ServicesOf(candidate));
  }

  // ----- the services of the override

  predicate AllChangesExist(names: seq<string>, was: seq<Entry>, now: seq<Entry>)
    requires ServicesKnown(names, was, now)
  {
    forall i :: 0 <= i < |names| ==> ServiceChanges(Get(was, names[i]).entries, Get(now, names[i]).entries, 0).Ok?
  }

  lemma {:induction false} OverlayServicesExact(names: seq<string>, was: seq<Entry>, now: seq<Entry>)
    requires ServicesKnown(names, was, now) && Distinct(names)
    ensures OverlayServices(names, was, now).Ok? <==> AllChangesExist(names, was, now)
    ensures OverlayServices(names, was, now).Ok? ==>
              var services := OverlayServices(names, was, now).value;
              && Keys(services) == names
              && forall i :: 0 <= i < |names| ==>
                   services[i].value ==
                   Mapping(None, ServiceChanges(Get(was, names[i]).entries, Get(now, names[i]).entries, 0).value)
  {
    if names != [] {
      var n := |names| - 1;
      OverlayServicesExact(names[..n], was, now);
      AllChangesStep(names, was, now);
      if OverlayServices(names, was, now).Ok? {
        var before := OverlayServices(names[..n], was, now).value;
        KeysAppend(before, Entry(names[n], ChangesEntry(was, now, names[n])));
        assert names == names[..n] + [names[n]];
      }
    }
  }

  function ChangesEntry(was: seq<Entry>, now: seq<Entry>, name: string): Value
    requires Has(was, name) && Has(now, name) && Get(was, name).Mapping? && Get(now, name).Mapping?
    requires ServiceChanges(Get(was, name).entries, Get(now, name).entries, 0).Ok?
  {
    Mapping(None, ServiceChanges(Get(was, name).entries, Get(now, name).entries, 0).value)
  }

  lemma AllChangesStep(names: seq<string>, was: seq<Entry>, now: seq<Entry>)
    requires names != [] && ServicesKnown(names, was, now)
    ensures var n := |names| - 1;
            && ServicesKnown(names[..n], was, now)
            && (AllChangesExist(names, was, now) <==>
                AllChangesExist(names[..n], was, now) &&
                ServiceChanges(Get(was, names[n]).entries, Get(now, names[n]).entries, 0).Ok?)
  {
    var n := |names| - 1;
    assert forall i :: 0 <= i < n ==> names[..n][i] == names[i];
  }

  lemma KeysAppend(entries: seq<Entry>, e: Entry)
    ensures Keys(entries + [e]) == Keys(entries) + [e.key]
  {
  }

  // ----- exactly when the whole override restores the candidate

  ghost predicate ServiceRestorable(was: Value, now: Value) {
    && was.Mapping? && now.Mapping?
    && !IsReset(now)
    && Restorable(was.entries, now.entries, !IsReset(was), 0)
  }

  ghost predicate ServicesRestorable(base: Value, candidate: Value)
    requires Valid(base) && ChangedServices(base, candidate).Ok?
  {
    forall name :: name in ChangedServices(base, candidate).value ==>
      && Has(ServicesOf(base), name) && Has(ServicesOf(candidate), name)
      && ServiceRestorable(Get(ServicesOf(base), name), Get(ServicesOf(candidate), name))
  }

  /** Neither document, nor its services mapping, is itself reset. */
  ghost predicate FrameLive(doc: Value) {
    && doc.Mapping? && !IsReset(doc)
    && Has(doc.entries, "services") && !IsReset(Get(doc.entries, "services"))
  }

  ghost predicate DocumentRestored(base: Value, candidate: Value, combine: Combine)
    requires Valid(base) && Valid(candidate)
  {
    var overlay := CumulativeOverlay(base, candidate);
    overlay.Ok? && Merge(Effective(base), overlay.value, combine) == Effective(candidate)
  }

  /** Over the baseline's service, the override's entry gives the candidate's service. */
  ghost predicate ServiceMerged(was: seq<Entry>, now: seq<Entry>, e: Entry, combine: Combine) {
    && Has(was, e.key) && Has(now, e.key)
    && Merge(Effective(Get(was, e.key)), e.value, combine) == Effective(Get(now, e.key))
  }

  lemma ServiceMergedIff(was: seq<Entry>, now: seq<Entry>, name: string, combine: Combine)
    requires Has(was, name) && Has(now, name) && Valid(Get(was, name)) && Valid(Get(now, name))
    requires Get(was, name).Mapping? && Get(now, name).Mapping?
    requires AllComparable(Get(was, name).entries) && AllComparable(Get(now, name).entries)
    ensures ServiceRestorable(Get(was, name), Get(now, name)) <==>
            var changes := ServiceChanges(Get(was, name).entries, Get(now, name).entries, 0);
            changes.Ok? && ServiceMerged(was, now, Entry(name, Mapping(None, changes.value)), combine)
  {
    var b, c := Get(was, name), Get(now, name);
    RestoresIffRestorable(b.entries, c.entries, !IsReset(b), 0, combine);
    assert FieldsOf(Effective(b)) == BaseFields(b.entries, !IsReset(b));
  }

  /** For every admitted pair of documents, the override exists and merging it over the
      baseline gives what the candidate stands for iff every changed service is restorable. */
  lemma CumulativeOverlayRestoresIff(base: Value, candidate: Value, combine: Combine)
    requires Valid(base) && Valid(candidate) && FrameLive(base) && FrameLive(candidate)
    requires ChangedServices(base, candidate).Ok? && ChangedServices(base, candidate).value != []
    ensures DocumentRestored(base, candidate, combine) <==> ServicesRestorable(base, candidate)
  {
    ChangedServicesExact(base, candidate);
    ChangedServicesKnown(base, candidate);
    ServicesValid(base);
    ServicesValid(candidate);
    AdmittedComparable(base);
    AdmittedComparable(candidate);
    ServicesRestoredIff(ChangedServices(base, candidate).value, ServicesOf(base), ServicesOf(candidate), combine);
    AssembledIff(base, candidate, combine);
  }

  lemma AssembledIff(base: Value, candidate: Value, combine: Combine)
    requires Valid(base) && Valid(candidate) && FrameLive(base) && FrameLive(candidate)
    requires ChangedServices(base, candidate).Ok? && ChangedServices(base, candidate).value != []
    requires ServicesKnown(ChangedServices(base, candidate).value, ServicesOf(base), ServicesOf(candidate))
    ensures var services := OverlayServices(ChangedServices(base, candidate).value, ServicesOf(base), ServicesOf(candidate));
            DocumentRestored(base, candidate, combine) <==>
            services.Ok? && AllMerged(ServicesOf(base), ServicesOf(candidate), services.value, combine)
  {
    var names := ChangedServices(base, candidate).value;
    var was, now := ServicesOf(base), ServicesOf(candidate);
    ChangedServicesExact(base, candidate);
    if OverlayServices(names, was, now).Ok? {
      OverlayServicesExact(names, was, now);
      var services := OverlayServices(names, was, now).value;
      DocumentMergedIff(base, candidate, services, combine);
      ServicesValid(base);
      ServicesValid(candidate);
      forall k ensures Has(services, k) <==> k in names { HasIffKey(services, k); }
      FieldsMergedIff(was, now, services, combine);
    }
  }

  lemma ServicesRestoredIff(names: seq<string>, was: seq<Entry>, now: seq<Entry>, combine: Combine)
    requires ServicesKnown(names, was, now) && Distinct(names)
    requires ValidEntries(was) && ValidEntries(now)
    requires forall i :: 0 <= i < |was| && was[i].value.Mapping? ==> AllComparable(was[i].value.entries)
    requires forall i :: 0 <= i < |now| && now[i].value.Mapping? ==> AllComparable(now[i].value.entries)
    ensures (forall name :: name in names ==> ServiceRestorable(Get(was, name), Get(now, name))) <==>
            var services := OverlayServices(names, was, now);
            services.Ok? && AllMerged(was, now, services.value, combine)
  {
    OverlayServicesExact(names, was, now);
    forall i | 0 <= i < |names|
      ensures ServiceRestorable(Get(was, names[i]), Get(now, names[i])) <==>
              var changes := ServiceChanges(Get(was, names[i]).entries, Get(now, names[i]).entries, 0);
              changes.Ok? && ServiceMerged(was, now, Entry(names[i], Mapping(None, changes.value)), combine)
    {
      ServiceMergedIff(was, now, names[i], combine);
    }
    if OverlayServices(names, was, now).Ok? {
      var services := OverlayServices(names, was, now).value;
      forall i | 0 <= i < |names|
        ensures services[i] ==
                Entry(names[i], Mapping(None, ServiceChanges(Get(was, names[i]).entries, Get(now, names[i]).entries, 0).value))
      {
        assert Keys(services)[i] == names[i];
      }
    }
  }

  /** Around the services nothing moves: the documents agree there. */
  lemma DocumentMergedIff(base: Value, candidate: Value, services: seq<Entry>, combine: Combine)
    requires Valid(base) && Valid(candidate) && FrameLive(base) && FrameLive(candidate)
    requires CheckFrame(base, candidate).Ok?
    ensures Merge(Effective(base), OverlayDocument(services), combine) == Effective(candidate) <==>
            MergeFields(EffectiveFields(ServicesOf(base)), services, combine) == EffectiveFields(ServicesOf(candidate))
  {
    FrameServices(base, candidate);
    OutsideFields(base, candidate);
    FrameEffect(base);
    FrameEffect(candidate);
    ServicesFieldIff(base.entries, candidate.entries, services, combine);
    OverlayDocumentMerge(EffectiveFields(base.entries), services, combine);
  }

  lemma OutsideFields(base: Value, candidate: Value)
    requires Valid(base) && Valid(candidate) && CheckFrame(base, candidate).Ok?
    ensures base.Mapping? && candidate.Mapping?
    ensures forall k :: k != "services" ==>
              FieldOf(EffectiveFields(base.entries), k) == FieldOf(EffectiveFields(candidate.entries), k)
  {
    forall k | k != "services"
      ensures FieldOf(EffectiveFields(base.entries), k) == FieldOf(EffectiveFields(candidate.entries), k)
    {
      OutsideField(base, candidate, k);
    }
  }

  lemma FrameServices(base: Value, candidate: Value)
    requires CheckFrame(base, candidate).Ok?
    ensures base.Mapping? && Has(base.entries, "services") && Get(base.entries, "services").Mapping?
    ensures candidate.Mapping? && Has(candidate.entries, "services") && Get(candidate.entries, "services").Mapping?
  {
    SameKeysIff(base.entries, candidate.entries, "services");
  }

  lemma FrameEffect(doc: Value)
    requires FrameLive(doc)
    ensures Effective(doc) == Some(PMap(EffectiveFields(doc.entries)))
  {
  }

  lemma OverlayDocumentMerge(base: map<string, Plain>, services: seq<Entry>, combine: Combine)
    ensures Merge(Some(PMap(base)), OverlayDocument(services), combine) ==
            Some(PMap(MergeFields(base, [Entry("services", Mapping(None, services))], combine)))
  {
  }

  lemma ServicesFieldIff(base: seq<Entry>, candidate: seq<Entry>, services: seq<Entry>, combine: Combine)
    requires Has(base, "services") && Get(base, "services").Mapping? && !IsReset(Get(base, "services"))
    requires Has(candidate, "services") && Get(candidate, "services").Mapping? && !IsReset(Get(candidate, "services"))
    requires forall k :: k != "services" ==> FieldOf(EffectiveFields(base), k) == FieldOf(EffectiveFields(candidate), k)
    ensures MergeFields(EffectiveFields(base), [Entry("services", Mapping(None, services))], combine)
            == EffectiveFields(candidate) <==>
            MergeFields(EffectiveFields(Get(base, "services").entries), services, combine)
            == EffectiveFields(Get(candidate, "services").entries)
  {
    var e := Entry("services", Mapping(None, services));
    var merged, target := MergeFields(EffectiveFields(base), [e], combine), EffectiveFields(candidate);
    EffectiveField(base, "services");
    EffectiveField(candidate, "services");
    MergeOne(EffectiveFields(base), e, combine);
    if FieldOf(merged, "services") == FieldOf(target, "services") {
      forall k ensures FieldOf(merged, k) == FieldOf(target, k) {
        assert k != "services" ==> FieldOf(EffectiveFields(base), k) == FieldOf(merged, k);
      }
      FieldsEqual(merged, target);
    }
  }

  lemma MergeOne(base: map<string, Plain>, e: Entry, combine: Combine)
    ensures MergeFields(base, [e], combine) == SetField(base, e.key, Merge(FieldOf(base, e.key), e.value, combine))
  {
    var one := [e];
    assert one[..|one| - 1] == [];
  }

  lemma OutsideField(base: Value, candidate: Value, key: string)
    requires Valid(base) && Valid(candidate) && CheckFrame(base, candidate).Ok? && key != "services"
    ensures FieldOf(EffectiveFields(base.entries), key) == FieldOf(EffectiveFields(candidate.entries), key)
  {
    AdmittedComparable(base);
    AdmittedComparable(candidate);
    OutsideServicesSame(base.entries, candidate.entries);
    EffectiveField(base.entries, key);
    EffectiveField(candidate.entries, key);
    SameKeysIff(base.entries, candidate.entries, key);
    if Has(base.entries, key) {
      var i := IndexOf(base.entries, key);
      assert Same(base.entries[i].value, Get(candidate.entries, base.entries[i].key));
      CanonicalIffSameUpToKeyOrder(base.entries[i].value, Get(candidate.entries, key));
      SameMeaningSameEffect(base.entries[i].value, Get(candidate.entries, key));
    }
  }

  lemma SameKeysIff(a: seq<Entry>, b: seq<Entry>, key: string)
    requires SameKeys(a, b)
    ensures Has(a, key) <==> Has(b, key)
  {
    if Has(a, key) { assert Has(b, a[IndexOf(a, key)].key); }
    if Has(b, key) { assert Has(a, b[IndexOf(b, key)].key); }
  }

  ghost predicate AllMerged(was: seq<Entry>, now: seq<Entry>, services: seq<Entry>, combine: Combine) {
    forall i :: 0 <= i < |services| ==> ServiceMerged(was, now, services[i], combine)
  }

  lemma FieldsMergedIff(was: seq<Entry>, now: seq<Entry>, services: seq<Entry>, combine: Combine)
    requires ValidEntries(was) && ValidEntries(now) && SameKeys(was, now) && Distinct(Keys(services))
    requires forall k :: Has(services, k) <==> Has(was, k) && Has(now, k) && !Same(Get(was, k), Get(now, k))
    ensures MergeFields(EffectiveFields(was), services, combine) == EffectiveFields(now) <==>
            AllMerged(was, now, services, combine)
  {
    var merged, target := MergeFields(EffectiveFields(was), services, combine), EffectiveFields(now);
    if merged == target {
      forall i | 0 <= i < |services|
        ensures ServiceMerged(was, now, services[i], combine)
      {
        GetAt(services, i);
        ServiceField(was, now, services, services[i].key, combine);
      }
    }
    if AllMerged(was, now, services, combine) {
      forall key ensures FieldOf(merged, key) == FieldOf(target, key) {
        ServiceField(was, now, services, key, combine);
      }
      FieldsEqual(merged, target);
    }
  }

  lemma ServiceField(was: seq<Entry>, now: seq<Entry>, services: seq<Entry>, key: string, combine: Combine)
    requires ValidEntries(was) && ValidEntries(now) && SameKeys(was, now) && Distinct(Keys(services))
    requires forall k :: Has(services, k) <==> Has(was, k) && Has(now, k) && !Same(Get(was, k), Get(now, k))
    ensures var merged, target := MergeFields(EffectiveFields(was), services, combine), EffectiveFields(now);
            FieldOf(merged, key) == FieldOf(target, key) <==>
            Has(services, key) ==> ServiceMerged(was, now, Entry(key, Get(services, key)), combine)
    ensures AllMerged(was, now, services, combine) && Has(services, key) ==>
              ServiceMerged(was, now, Entry(key, Get(services, key)), combine)
  {
    if AllMerged(was, now, services, combine) && Has(services, key) {
      assert ServiceMerged(was, now, services[IndexOf(services, key)], combine);
    }
    MergedField(EffectiveFields(was), services, key, combine);
    EffectiveField(was, key);
    EffectiveField(now, key);
    SameKeysIff(was, now, key);
    if !Has(services, key) && Has(was, key) {
      CanonicalIffSameUpToKeyOrder(Get(was, key), Get(now, key));
      SameMeaningSameEffect(Get(was, key), Get(now, key));
    }
  }

  lemma UntaggedServiceRestorable(was: Value, now: Value)
    requires was.Mapping? && now.Mapping? && Valid(was) && Valid(now) && !Same(was, now)
    requires MappingsUntagged(was) && Untagged(now) && MappingsWithin(now, MAX_OPEN_COLLECTIONS)
    ensures ServiceRestorable(was, now)
  {
    if !EntriesDiffer(was.entries, now.entries) {
      NoDifferenceIsSame(was, now);
    }
    UntaggedRestorable(was.entries, now.entries, 0);
  }

  lemma UntaggedParts(doc: Value)
    requires doc.Mapping? && Has(doc.entries, "services") && Get(doc.entries, "services").Mapping?
    ensures MappingsUntagged(doc) ==> forall i :: 0 <= i < |ServicesOf(doc)| ==> MappingsUntagged(ServicesOf(doc)[i].value)
    ensures Untagged(doc) ==> forall i :: 0 <= i < |ServicesOf(doc)| ==> Untagged(ServicesOf(doc)[i].value)
  {
    var services := doc.entries[IndexOf(doc.entries, "services")].value;
    assert MappingsUntagged(doc) ==> MappingsUntagged(services);
    assert Untagged(doc) ==> Untagged(services);
  }

  lemma UntaggedIsRestorable(base: Value, candidate: Value)
    requires Valid(base) && Valid(candidate) && FrameLive(base) && FrameLive(candidate)
    requires ChangedServices(base, candidate).Ok?
    requires MappingsUntagged(base) && Untagged(candidate)
    requires forall i :: 0 <= i < |ServicesOf(candidate)| ==>
               MappingsWithin(ServicesOf(candidate)[i].value, MAX_OPEN_COLLECTIONS)
    ensures ServicesRestorable(base, candidate)
  {
    ChangedServicesExact(base, candidate);
    ChangedServicesKnown(base, candidate);
    FrameServices(base, candidate);
    ServicesValid(base);
    ServicesValid(candidate);
    UntaggedParts(base);
    UntaggedParts(candidate);
    UntaggedServicesRestorable(ChangedServices(base, candidate).value, ServicesOf(base), ServicesOf(candidate));
  }

  /** The common case: no tag on a baseline mapping, none in the candidate, nesting within the limit. */
  lemma UntaggedDocumentRestored(base: Value, candidate: Value, combine: Combine)
    requires Valid(base) && Valid(candidate) && FrameLive(base) && FrameLive(candidate)
    requires ChangedServices(base, candidate).Ok? && ChangedServices(base, candidate).value != []
    requires MappingsUntagged(base) && Untagged(candidate)
    requires forall i :: 0 <= i < |ServicesOf(candidate)| ==>
               MappingsWithin(ServicesOf(candidate)[i].value, MAX_OPEN_COLLECTIONS)
    ensures DocumentRestored(base, candidate, combine)
  {
    UntaggedIsRestorable(base, candidate);
    CumulativeOverlayRestoresIff(base, candidate, combine);
  }

  lemma UntaggedServicesRestorable(names: seq<string>, was: seq<Entry>, now: seq<Entry>)
    requires ServicesKnown(names, was, now) && ValidEntries(was) && ValidEntries(now)
    requires forall i :: 0 <= i < |was| ==> MappingsUntagged(was[i].value)
    requires forall i :: 0 <= i < |now| ==> Untagged(now[i].value)
    requires forall i :: 0 <= i < |now| ==> MappingsWithin(now[i].value, MAX_OPEN_COLLECTIONS)
    requires forall i :: 0 <= i < |names| ==> !Same(Get(was, names[i]), Get(now, names[i]))
    ensures forall i :: 0 <= i < |names| ==> ServiceRestorable(Get(was, names[i]), Get(now, names[i]))
  {
    forall i | 0 <= i < |names|
      ensures ServiceRestorable(Get(was, names[i]), Get(now, names[i]))
    {
      UntaggedServiceRestorable(was[IndexOf(was, names[i])].value, now[IndexOf(now, names[i])].value);
    }
  }
}
