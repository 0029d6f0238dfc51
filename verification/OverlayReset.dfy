/** The exactness of the override for every pair of documents, whatever is tagged to be reset. */
module OverlayReset {
  import opened Basics
  import opened ComposeValues
  import opened ComposeMerge
  import opened Overlay
  import opened OverlayFaithful
  import opened OverlayWhole

  /** The baseline's services count when merging. */
  ghost predicate ServicesLive(base: Value) {
    base.Mapping? && Has(base.entries, "services") && !IsReset(base) && !IsReset(Get(base.entries, "services"))
  }

  /** A service of the candidate, merged over nothing. */
  ghost predicate BareRestorable(was: Value, now: Value, changed: bool) {
    if changed then was.Mapping? && now.Mapping? && !IsReset(now) && Restorable(was.entries, now.entries, false, 0)
    else IsReset(now)
  }

  ghost predicate BareServicesRestorable(base: Value, candidate: Value)
    requires Valid(base) && ChangedServices(base, candidate).Ok?
  {
    forall name :: Has(ServicesOf(candidate), name) ==>
      && Has(ServicesOf(base), name)
      && BareRestorable(Get(ServicesOf(base), name), Get(ServicesOf(candidate), name), name in ChangedServices(base, candidate).value)
  }

  /** Every other top-level key of the candidate is reset. */
  ghost predicate NothingOutside(candidate: Value) {
    candidate.Mapping? && forall k :: k != "services" && Has(candidate.entries, k) ==> IsReset(Get(candidate.entries, k))
  }

  ghost predicate DocumentRestorable(base: Value, candidate: Value)
    requires Valid(base) && ChangedServices(base, candidate).Ok?
  {
    && candidate.Mapping? && Has(candidate.entries, "services")
    && !IsReset(candidate) && !IsReset(Get(candidate.entries, "services"))
    && (IsReset(base) ==> NothingOutside(candidate))
    && if ServicesLive(base) then ServicesRestorable(base, candidate) else BareServicesRestorable(base, candidate)
  }

  // ----- a candidate that is itself reset

  lemma OverlayIsServices(base: Value, candidate: Value)
    requires Valid(base) && Valid(candidate) && CumulativeOverlay(base, candidate).Ok?
    ensures ServicesKnown(ChangedServices(base, candidate).value, ServicesOf(base), ServicesOf(candidate))
    ensures OverlayServices(ChangedServices(base, candidate).value, ServicesOf(base), ServicesOf(candidate)).Ok?
    ensures CumulativeOverlay(base, candidate).value ==
            OverlayDocument(OverlayServices(ChangedServices(base, candidate).value, ServicesOf(base), ServicesOf(candidate)).value)
  {
    ChangedServicesKnown(base, candidate);
  }

  lemma MergedServices(base: Option<Plain>, services: seq<Entry>, combine: Combine)
    ensures Merge(base, OverlayDocument(services), combine) ==
            Some(PMap(FieldsOf(base)["services" := PMap(MergeFields(
              FieldsOf(FieldOf(FieldsOf(base), "services")), services, combine))]))
  {
    MergeOne(FieldsOf(base), Entry("services", Mapping(None, services)), combine);
  }

  lemma ResetCandidate(base: Value, candidate: Value, combine: Combine)
    requires Valid(base) && Valid(candidate) && candidate.Mapping? && Has(candidate.entries, "services")
    requires IsReset(candidate) || IsReset(Get(candidate.entries, "services"))
    ensures !DocumentRestored(base, candidate, combine)
  {
    if CumulativeOverlay(base, candidate).Ok? {
      OverlayIsServices(base, candidate);
      var services := OverlayServices(ChangedServices(base, candidate).value, ServicesOf(base), ServicesOf(candidate)).value;
      MergedServices(Effective(base), services, combine);
      EffectiveField(candidate.entries, "services");
      if !IsReset(candidate) { assert "services" !in EffectiveFields(candidate.entries); }
    }
  }

  // ----- services merged over nothing

  /** Over nothing, the override's entry gives the candidate's service. */
  ghost predicate BareMerged(now: seq<Entry>, e: Entry, combine: Combine) {
    Has(now, e.key) && Merge(None, e.value, combine) == Effective(Get(now, e.key))
  }

  ghost predicate AllBare(now: seq<Entry>, services: seq<Entry>, combine: Combine) {
    && (forall i :: 0 <= i < |services| ==> BareMerged(now, services[i], combine))
    && (forall k :: Has(now, k) && !Has(services, k) ==> IsReset(Get(now, k)))
  }

  lemma EffectiveNone(v: Value)
    ensures Effective(v) == None <==> IsReset(v)
  {
  }

  lemma BareField(now: seq<Entry>, services: seq<Entry>, key: string, combine: Combine)
    requires ValidEntries(now) && Distinct(Keys(services))
    requires forall k :: Has(services, k) ==> Has(now, k)
    ensures FieldOf(MergeFields(map[], services, combine), key) == FieldOf(EffectiveFields(now), key) <==>
            if Has(services, key) then BareMerged(now, Entry(key, Get(services, key)), combine)
            else Has(now, key) ==> IsReset(Get(now, key))
  {
    MergedField(map[], services, key, combine);
    EffectiveField(now, key);
    if Has(now, key) { EffectiveNone(Get(now, key)); }
  }

  lemma BareMergedIff(now: seq<Entry>, services: seq<Entry>, combine: Combine)
    requires ValidEntries(now) && Distinct(Keys(services))
    requires forall k :: Has(services, k) ==> Has(now, k)
    ensures MergeFields(map[], services, combine) == EffectiveFields(now) <==> AllBare(now, services, combine)
  {
    var merged, target := MergeFields(map[], services, combine), EffectiveFields(now);
    if merged == target {
      forall i | 0 <= i < |services| ensures BareMerged(now, services[i], combine) {
        GetAt(services, i);
        BareField(now, services, services[i].key, combine);
      }
      forall k | Has(now, k) && !Has(services, k) ensures IsReset(Get(now, k)) { BareField(now, services, k, combine); }
    }
    if AllBare(now, services, combine) {
      forall key ensures FieldOf(merged, key) == FieldOf(target, key) {
        BareField(now, services, key, combine);
        if Has(services, key) { assert BareMerged(now, services[IndexOf(services, key)], combine); }
      }
      FieldsEqual(merged, target);
    }
  }

  lemma BareServiceIff(was: Value, now: Value, combine: Combine)
    requires was.Mapping? && now.Mapping? && Valid(was) && Valid(now)
    requires AllComparable(was.entries) && AllComparable(now.entries)
    ensures BareRestorable(was, now, true) <==>
            var changes := ServiceChanges(was.entries, now.entries, 0);
            changes.Ok? && Merge(None, Mapping(None, changes.value), combine) == Effective(now)
  {
    RestoresIffRestorable(was.entries, now.entries, false, 0, combine);
  }

  /** All services of the candidate, merged over nothing. */
  ghost predicate BareServices(names: seq<string>, was: seq<Entry>, now: seq<Entry>) {
    forall name :: Has(now, name) ==> Has(was, name) && BareRestorable(Get(was, name), Get(now, name), name in names)
  }

  lemma BareNamesIff(names: seq<string>, was: seq<Entry>, now: seq<Entry>, services: seq<Entry>, combine: Combine)
    requires ServicesKnown(names, was, now) && Distinct(names) && ValidEntries(was) && ValidEntries(now)
    requires forall i :: 0 <= i < |was| && was[i].value.Mapping? ==> AllComparable(was[i].value.entries)
    requires forall i :: 0 <= i < |now| && now[i].value.Mapping? ==> AllComparable(now[i].value.entries)
    requires OverlayServices(names, was, now) == Ok(services)
    ensures Keys(services) == names && |services| == |names|
    ensures forall i :: 0 <= i < |names| ==>
              (BareMerged(now, services[i], combine) <==> BareRestorable(Get(was, names[i]), Get(now, names[i]), true))
  {
    OverlayServicesExact(names, was, now);
    forall i | 0 <= i < |names|
      ensures BareMerged(now, services[i], combine) <==> BareRestorable(Get(was, names[i]), Get(now, names[i]), true)
    {
      assert Keys(services)[i] == services[i].key;
      BareServiceIff(Get(was, names[i]), Get(now, names[i]), combine);
    }
  }

  lemma BareNeedsChanges(names: seq<string>, was: seq<Entry>, now: seq<Entry>, combine: Combine)
    requires ServicesKnown(names, was, now) && Distinct(names) && ValidEntries(was) && ValidEntries(now)
    requires forall i :: 0 <= i < |was| && was[i].value.Mapping? ==> AllComparable(was[i].value.entries)
    requires forall i :: 0 <= i < |now| && now[i].value.Mapping? ==> AllComparable(now[i].value.entries)
    requires BareServices(names, was, now)
    ensures OverlayServices(names, was, now).Ok?
  {
    OverlayServicesExact(names, was, now);
    forall i | 0 <= i < |names|
      ensures ServiceChanges(Get(was, names[i]).entries, Get(now, names[i]).entries, 0).Ok?
    {
      assert names[i] in names && Has(now, names[i]);
      BareServiceIff(Get(was, names[i]), Get(now, names[i]), combine);
    }
  }

  lemma BareAllIff(names: seq<string>, was: seq<Entry>, now: seq<Entry>, services: seq<Entry>, combine: Combine)
    requires ServicesKnown(names, was, now) && SameKeys(was, now) && Keys(services) == names && |services| == |names|
    requires forall i :: 0 <= i < |names| ==>
               (BareMerged(now, services[i], combine) <==> BareRestorable(Get(was, names[i]), Get(now, names[i]), true))
    ensures BareServices(names, was, now) <==> AllBare(now, services, combine)
  {
    forall k ensures Has(services, k) <==> k in names { HasIffKey(services, k); }
    forall k | Has(now, k) ensures Has(was, k) { SameKeysIff(was, now, k); }
    if BareServices(names, was, now) {
      forall i | 0 <= i < |services| ensures BareMerged(now, services[i], combine) {
        assert names[i] in names && Has(now, names[i]);
      }
      forall k | Has(now, k) && !Has(services, k) ensures IsReset(Get(now, k)) {
        assert BareRestorable(Get(was, k), Get(now, k), k in names);
      }
    }
    if AllBare(now, services, combine) {
      forall name | Has(now, name) ensures BareRestorable(Get(was, name), Get(now, name), name in names) {
        if name in names {
          var i :| 0 <= i < |names| && names[i] == name;
          assert BareMerged(now, services[i], combine);
        }
      }
    }
  }

  lemma BareServicesIff(names: seq<string>, was: seq<Entry>, now: seq<Entry>, combine: Combine)
    requires ServicesKnown(names, was, now) && Distinct(names) && ValidEntries(was) && ValidEntries(now) && SameKeys(was, now)
    requires forall i :: 0 <= i < |was| && was[i].value.Mapping? ==> AllComparable(was[i].value.entries)
    requires forall i :: 0 <= i < |now| && now[i].value.Mapping? ==> AllComparable(now[i].value.entries)
    ensures BareServices(names, was, now) <==>
            var services := OverlayServices(names, was, now);
            services.Ok? && MergeFields(map[], services.value, combine) == EffectiveFields(now)
  {
    if BareServices(names, was, now) { BareNeedsChanges(names, was, now, combine); }
    if OverlayServices(names, was, now).Ok? {
      var services := OverlayServices(names, was, now).value;
      BareNamesIff(names, was, now, services, combine);
      BareAllIff(names, was, now, services, combine);
      forall k | Has(services, k) ensures Has(now, k) {
        HasIffKey(services, k);
        var i :| 0 <= i < |names| && names[i] == k;
      }
      BareMergedIff(now, services, combine);
    }
  }

  // ----- a baseline whose services do not count

  /** Around the services, when the baseline's root may be reset. */
  lemma OutsideBareIff(base: Value, candidate: Value, key: string)
    requires Valid(base) && Valid(candidate) && CheckFrame(base, candidate).Ok? && key != "services"
    ensures base.Mapping? && candidate.Mapping?
    ensures FieldOf(FieldsOf(Effective(base)), key) == FieldOf(EffectiveFields(candidate.entries), key) <==>
            (IsReset(base) && Has(candidate.entries, key) ==> IsReset(Get(candidate.entries, key)))
  {
    if IsReset(base) {
      EffectiveField(candidate.entries, key);
      if Has(candidate.entries, key) { EffectiveNone(Get(candidate.entries, key)); }
    } else {
      OutsideField(base, candidate, key);
    }
  }

  lemma DeadServices(base: Value)
    requires base.Mapping? && Has(base.entries, "services") && !ServicesLive(base)
    ensures FieldOf(FieldsOf(Effective(base)), "services") == None
  {
    EffectiveField(base.entries, "services");
    if !IsReset(base) { EffectiveNone(Get(base.entries, "services")); }
  }

  lemma LiveCandidate(candidate: Value)
    requires candidate.Mapping? && !IsReset(candidate) && Has(candidate.entries, "services")
    requires Get(candidate.entries, "services").Mapping? && !IsReset(Get(candidate.entries, "services"))
    ensures Effective(candidate) == Some(PMap(EffectiveFields(candidate.entries)))
    ensures FieldOf(EffectiveFields(candidate.entries), "services") == Some(PMap(EffectiveFields(ServicesOf(candidate))))
  {
    EffectiveField(candidate.entries, "services");
  }

  lemma DeadMergedIff(base: Value, candidate: Value, services: seq<Entry>, combine: Combine)
    requires Valid(base) && Valid(candidate) && CheckFrame(base, candidate).Ok? && !ServicesLive(base)
    requires candidate.Mapping? && !IsReset(candidate) && Has(candidate.entries, "services")
    requires Get(candidate.entries, "services").Mapping? && !IsReset(Get(candidate.entries, "services"))
    ensures Merge(Effective(base), OverlayDocument(services), combine) == Effective(candidate) <==>
            (IsReset(base) ==> NothingOutside(candidate)) &&
            MergeFields(map[], services, combine) == EffectiveFields(ServicesOf(candidate))
  {
    FrameServices(base, candidate);
    DeadServices(base);
    LiveCandidate(candidate);
    MergedServices(Effective(base), services, combine);
    var merged := FieldsOf(Effective(base))["services" := PMap(MergeFields(map[], services, combine))];
    var target := EffectiveFields(candidate.entries);
    forall k | k != "services"
      ensures FieldOf(merged, k) == FieldOf(target, k) <==>
              (IsReset(base) && Has(candidate.entries, k) ==> IsReset(Get(candidate.entries, k)))
    {
      OutsideBareIff(base, candidate, k);
      assert FieldOf(merged, k) == FieldOf(FieldsOf(Effective(base)), k);
    }
    if (forall k :: FieldOf(merged, k) == FieldOf(target, k)) { FieldsEqual(merged, target); }
  }

  lemma SidesComparable(base: Value, candidate: Value, was: seq<Entry>, now: seq<Entry>)
    requires Valid(base) && Valid(candidate) && CheckFrame(base, candidate).Ok?
    requires was == ServicesOf(base) && now == ServicesOf(candidate)
    ensures ValidEntries(was) && ValidEntries(now)
    ensures forall i :: 0 <= i < |was| && was[i].value.Mapping? ==> AllComparable(was[i].value.entries)
    ensures forall i :: 0 <= i < |now| && now[i].value.Mapping? ==> AllComparable(now[i].value.entries)
  {
    ServicesValid(base);
    ServicesValid(candidate);
    AdmittedComparable(base);
    AdmittedComparable(candidate);
  }

  lemma ChangedReady(base: Value, candidate: Value, names: seq<string>, was: seq<Entry>, now: seq<Entry>)
    requires Valid(base) && Valid(candidate) && ChangedServices(base, candidate) == Ok(names)
    requires was == ServicesOf(base) && now == ServicesOf(candidate)
    ensures CheckFrame(base, candidate).Ok? && ServicesKnown(names, was, now) && Distinct(names) && SameKeys(was, now)
  {
    ChangedServicesExact(base, candidate);
    ChangedServicesKnown(base, candidate);
  }

  lemma BareDocumentIff(base: Value, candidate: Value, combine: Combine)
    requires Valid(base) && Valid(candidate) && ChangedServices(base, candidate).Ok?
    ensures ServicesKnown(ChangedServices(base, candidate).value, ServicesOf(base), ServicesOf(candidate))
    ensures BareServicesRestorable(base, candidate) <==>
            var services := OverlayServices(ChangedServices(base, candidate).value, ServicesOf(base), ServicesOf(candidate));
            services.Ok? && MergeFields(map[], services.value, combine) == EffectiveFields(ServicesOf(candidate))
  {
    var names, was, now := ChangedServices(base, candidate).value, ServicesOf(base), ServicesOf(candidate);
    ChangedReady(base, candidate, names, was, now);
    SidesComparable(base, candidate, was, now);
    BareServicesIff(names, was, now, combine);
  }

  lemma OverlayIs(base: Value, candidate: Value)
    requires Valid(base) && Valid(candidate) && ChangedServices(base, candidate).Ok? && ChangedServices(base, candidate).value != []
    requires ServicesKnown(ChangedServices(base, candidate).value, ServicesOf(base), ServicesOf(candidate))
    ensures var services := OverlayServices(ChangedServices(base, candidate).value, ServicesOf(base), ServicesOf(candidate));
            services.Ok? ==> CumulativeOverlay(base, candidate) == Ok(OverlayDocument(services.value))
  {
  }

  lemma DeadBaseIff(base: Value, candidate: Value, combine: Combine)
    requires Valid(base) && Valid(candidate) && !ServicesLive(base)
    requires ChangedServices(base, candidate).Ok? && ChangedServices(base, candidate).value != []
    requires candidate.Mapping? && !IsReset(candidate) && Has(candidate.entries, "services")
    requires Get(candidate.entries, "services").Mapping? && !IsReset(Get(candidate.entries, "services"))
    ensures DocumentRestored(base, candidate, combine) <==>
            (IsReset(base) ==> NothingOutside(candidate)) && BareServicesRestorable(base, candidate)
  {
    var names := ChangedServices(base, candidate).value;
    ChangedServicesKnown(base, candidate);
    BareDocumentIff(base, candidate, combine);
    var services := OverlayServices(names, ServicesOf(base), ServicesOf(candidate));
    if services.Ok? {
      OverlayIs(base, candidate);
      DeadMergedIff(base, candidate, services.value, combine);
    }
  }

  /** For every admitted pair of documents: the override exists and merges to the candidate iff the pair is restorable. */
  lemma DocumentRestoredIff(base: Value, candidate: Value, combine: Combine)
    requires Valid(base) && Valid(candidate)
    requires ChangedServices(base, candidate).Ok? && ChangedServices(base, candidate).value != []
    ensures DocumentRestored(base, candidate, combine) <==> DocumentRestorable(base, candidate)
  {
    FrameServices(base, candidate);
    if IsReset(candidate) || IsReset(Get(candidate.entries, "services")) {
      ResetCandidate(base, candidate, combine);
    } else if ServicesLive(base) {
      CumulativeOverlayRestoresIff(base, candidate, combine);
    } else {
      DeadBaseIff(base, candidate, combine);
    }
  }
}