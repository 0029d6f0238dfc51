/** Documents that kept mutations lead to, and the hardened override between the two ends. */
module Hardened {
  import opened Basics
  import opened ComposeValues
  import opened ComposeMerge
  import opened Overlay
  import opened OverlayFaithful
  import opened OverlayWhole
  import opened Mutations
  import opened MutationLaws
  import opened MutationMeaning
  import opened Policy

  // ----- what a chain of kept mutations can have changed

  ghost predicate Touched(experiments: seq<Record>, service: string, key: string) {
    exists i :: 0 <= i < |experiments| && TouchedBy(experiments[i], service, key)
  }

  predicate TouchedBy(r: Record, service: string, key: string) {
    r.verdict == Keep && r.mutation.service == service && KeyOf(r.mutation.kind) == key
  }

  /** Both or neither have the key, and with the same meaning. */
  ghost predicate MeansSame(a: seq<Entry>, b: seq<Entry>, key: string) {
    && Has(a, key) == Has(b, key)
    && (Has(a, key) ==> Meaning(Get(a, key)) == Meaning(Get(b, key)))
  }

  /** What mutations write: scalars, and sequences that are not reset. */
  ghost predicate WrittenShape(entries: seq<Entry>, key: string) {
    Has(entries, key) ==>
      var v := Get(entries, key);
      v.Atom? || (v.List? && !IsReset(v))
  }

  ghost predicate KeyDerived(name: string, b: seq<Entry>, c: seq<Entry>, experiments: seq<Record>, key: string) {
    if Touched(experiments, name, key) then WrittenShape(c, key) else MeansSame(b, c, key)
  }

  ghost predicate ServiceDerived(name: string, b: Value, c: Value, experiments: seq<Record>) {
    if b.Mapping?
    then c.Mapping? && c.mark == b.mark && forall k :: KeyDerived(name, b.entries, c.entries, experiments, k)
    else Meaning(c) == Meaning(b)
  }

  ghost predicate ServicesDerived(b: seq<Entry>, c: seq<Entry>, experiments: seq<Record>) {
    forall name :: Has(b, name) == Has(c, name) &&
      (Has(b, name) ==> ServiceDerived(name, Get(b, name), Get(c, name), experiments))
  }

  predicate HasServices(doc: Value) {
    doc.Mapping? && Has(doc.entries, "services") && Get(doc.entries, "services").Mapping?
  }

  /** `doc` is `base` but for the keys that kept mutations own. */
  ghost predicate Derived(base: Value, doc: Value, experiments: seq<Record>) {
    && HasServices(base) && HasServices(doc)
    && doc.mark == base.mark
    && (forall k :: k != "services" ==> MeansSame(base.entries, doc.entries, k))
    && Get(doc.entries, "services").mark == Get(base.entries, "services").mark
    && ServicesDerived(ServicesOf(base), ServicesOf(doc), experiments)
  }

  lemma DerivedRefl(base: Value)
    requires HasServices(base)
    ensures Derived(base, base, [])
  {
  }

  /** A record that was not kept derives nothing more. */
  lemma DerivedSkip(base: Value, doc: Value, experiments: seq<Record>, r: Record)
    requires Derived(base, doc, experiments) && r.verdict != Keep
    ensures Derived(base, doc, experiments + [r])
  {
    forall name, key ensures Touched(experiments + [r], name, key) <==> Touched(experiments, name, key) {
      TouchedAppend(experiments, r, name, key);
    }
    var b, c := ServicesOf(base), ServicesOf(doc);
    forall name | Has(b, name)
      ensures ServiceDerived(name, Get(b, name), Get(c, name), experiments + [r])
    {
      assert ServiceDerived(name, Get(b, name), Get(c, name), experiments);
      if Get(b, name).Mapping? {
        forall k ensures KeyDerived(name, Get(b, name).entries, Get(c, name).entries, experiments + [r], k) {
          assert KeyDerived(name, Get(b, name).entries, Get(c, name).entries, experiments, k);
        }
      }
    }
  }

  lemma TouchedAppend(experiments: seq<Record>, r: Record, name: string, key: string)
    ensures Touched(experiments + [r], name, key) <==> Touched(experiments, name, key) || TouchedBy(r, name, key)
  {
    var longer := experiments + [r];
    if Touched(experiments, name, key) {
      var i :| 0 <= i < |experiments| && TouchedBy(experiments[i], name, key);
      assert longer[i] == experiments[i];
    }
    if TouchedBy(r, name, key) { assert longer[|experiments|] == r; }
  }

  /** Key order does not matter to what a document derives from. */
  lemma DerivedMeaning(base: Value, doc: Value, other: Value, experiments: seq<Record>)
    requires Derived(base, doc, experiments) && Meaning(doc) == Meaning(other)
    ensures Derived(base, other, experiments)
  {
    forall k | k != "services" ensures MeansSame(base.entries, other.entries, k) {
      assert MeansSame(base.entries, doc.entries, k);
      FieldsMeanSame(doc.entries, other.entries, k);
    }
    FieldsMeanSame(doc.entries, other.entries, "services");
    ServicesDerivedMeaning(ServicesOf(base), ServicesOf(doc), ServicesOf(other), experiments);
  }

  lemma ServicesDerivedMeaning(b: seq<Entry>, c: seq<Entry>, d: seq<Entry>, experiments: seq<Record>)
    requires ServicesDerived(b, c, experiments) && MeaningFields(c) == MeaningFields(d)
    ensures ServicesDerived(b, d, experiments)
  {
    forall name
      ensures Has(b, name) == Has(d, name)
      ensures Has(b, name) ==> ServiceDerived(name, Get(b, name), Get(d, name), experiments)
    {
      assert Has(b, name) == Has(c, name);
      FieldsMeanSame(c, d, name);
      if Has(c, name) {
        ServiceDerivedMeaning(name, Get(b, name), Get(c, name), Get(d, name), experiments);
      }
    }
  }

  lemma FieldsMeanSame(a: seq<Entry>, b: seq<Entry>, key: string)
    requires MeaningFields(a) == MeaningFields(b)
    ensures MeansSame(a, b, key)
  {
    assert key in MeaningFields(a) <==> key in MeaningFields(b);
    if Has(a, key) { assert MeaningFields(a)[key] == MeaningFields(b)[key]; }
  }

  lemma ServiceDerivedMeaning(name: string, b: Value, c: Value, d: Value, experiments: seq<Record>)
    requires ServiceDerived(name, b, c, experiments) && Meaning(c) == Meaning(d)
    ensures ServiceDerived(name, b, d, experiments)
  {
    if b.Mapping? {
      forall k ensures KeyDerived(name, b.entries, d.entries, experiments, k) {
        assert KeyDerived(name, b.entries, c.entries, experiments, k);
        FieldsMeanSame(c.entries, d.entries, k);
      }
    }
  }

  // ----- one more kept mutation

  lemma WrittenShapeOf(entries: seq<Entry>, kind: MutationType)
    requires MutateService(entries, kind).Ok?
    ensures Written(entries, kind).Some? ==>
              var v := Written(entries, kind).value;
              v.Atom? || (v.List? && !IsReset(v))
  {
  }

  lemma DerivedStep(base: Value, doc: Value, experiments: seq<Record>, r: Record)
    requires Derived(base, doc, experiments) && Valid(doc)
    requires r.verdict == Keep && ApplyMutation(doc, r.mutation).Ok?
    ensures Derived(base, ApplyMutation(doc, r.mutation).value, experiments + [r])
  {
    var m, next := r.mutation, ApplyMutation(doc, r.mutation).value;
    ApplyMutationFrame(doc, m);
    ServiceValid(doc, m);
    var b, c, d := ServicesOf(base), ServicesOf(doc), ServicesOf(next);
    forall k | k != "services" ensures MeansSame(base.entries, next.entries, k) {
      assert MeansSame(base.entries, doc.entries, k);
    }
    forall name
      ensures Has(b, name) == Has(d, name)
      ensures Has(b, name) ==> ServiceDerived(name, Get(b, name), Get(d, name), experiments + [r])
    {
      assert Has(b, name) == Has(c, name);
      if Has(b, name) {
        if name == m.service {
          TargetDerived(Get(b, name), ServiceOf(doc, m), ServiceOf(next, m), experiments, r);
        } else {
          OtherDerived(name, Get(b, name), Get(c, name), experiments, r);
        }
      }
    }
  }

  lemma OtherDerived(name: string, b: Value, c: Value, experiments: seq<Record>, r: Record)
    requires ServiceDerived(name, b, c, experiments) && name != r.mutation.service
    ensures ServiceDerived(name, b, c, experiments + [r])
  {
    if b.Mapping? {
      forall k ensures KeyDerived(name, b.entries, c.entries, experiments + [r], k) {
        assert KeyDerived(name, b.entries, c.entries, experiments, k);
        TouchedAppend(experiments, r, name, k);
      }
    }
  }

  lemma TargetDerived(b: Value, c: Value, d: Value, experiments: seq<Record>, r: Record)
    requires ServiceDerived(r.mutation.service, b, c, experiments) && r.verdict == Keep
    requires c.Mapping? && d.Mapping? && d.mark == c.mark && ValidEntries(c.entries)
    requires MutateService(c.entries, r.mutation.kind) == Ok(d.entries)
    ensures ServiceDerived(r.mutation.service, b, d, experiments + [r])
  {
    var name, own := r.mutation.service, KeyOf(r.mutation.kind);
    MutateServiceFrame(c.entries, r.mutation.kind);
    WrittenShapeOf(c.entries, r.mutation.kind);
    forall k ensures KeyDerived(name, b.entries, d.entries, experiments + [r], k) {
      TouchedAppend(experiments, r, name, k);
      assert KeyDerived(name, b.entries, c.entries, experiments, k);
      if k == own { assert TouchedBy(r, name, k); }
    }
  }

  // ----- the override of a derived document

  ghost predicate TouchedLive(base: Value, experiments: seq<Record>) {
    forall name, key :: Touched(experiments, name, key) && Has(ServicesOf(base), name) ==>
      !IsReset(Get(ServicesOf(base), name))
  }

  lemma CanonicalWithoutMark(doc: Value)
    requires doc.Mapping? && CanonicalForm(doc).Ok?
    ensures Canonicalisable(doc)
  {
    assert CanonOf(Mapping(None, doc.entries)) == CMap(None, CanonPairs(SortedKeys(doc.entries), doc.entries));
  }

  lemma DerivedFrame(base: Value, doc: Value, experiments: seq<Record>)
    requires Valid(base) && Valid(doc) && Derived(base, doc, experiments)
    requires CanonicalForm(base).Ok? && CanonicalForm(doc).Ok?
    requires AllMappings(ServicesOf(base))
    ensures CheckFrame(base, doc).Ok?
  {
    CanonicalWithoutMark(base);
    CanonicalWithoutMark(doc);
    AdmittedComparable(base);
    AdmittedComparable(doc);
    DerivedKeys(base, doc, experiments);
    OutsideServicesSame(base.entries, doc.entries);
    forall i | 0 <= i < |base.entries| && base.entries[i].key != "services"
      ensures Same(base.entries[i].value, Get(doc.entries, base.entries[i].key))
    {
      GetAt(base.entries, i);
      assert MeansSame(base.entries, doc.entries, base.entries[i].key);
      SameMeaningSameCanon(base.entries[i].value, Get(doc.entries, base.entries[i].key));
    }
  }

  lemma DerivedKeys(base: Value, doc: Value, experiments: seq<Record>)
    requires Valid(base) && Valid(doc) && Derived(base, doc, experiments) && AllMappings(ServicesOf(base))
    ensures SameKeys(base.entries, doc.entries)
    ensures SameKeys(ServicesOf(base), ServicesOf(doc)) && AllMappings(ServicesOf(doc))
  {
    forall i | 0 <= i < |base.entries| ensures Has(doc.entries, base.entries[i].key) {
      GetAt(base.entries, i);
      assert base.entries[i].key != "services" ==> MeansSame(base.entries, doc.entries, base.entries[i].key);
    }
    forall i | 0 <= i < |doc.entries| ensures Has(base.entries, doc.entries[i].key) {
      GetAt(doc.entries, i);
      assert doc.entries[i].key != "services" ==> MeansSame(base.entries, doc.entries, doc.entries[i].key);
    }
    var b, c := ServicesOf(base), ServicesOf(doc);
    ServicesValid(base);
    ServicesValid(doc);
    forall i | 0 <= i < |b| ensures Has(c, b[i].key) {
      GetAt(b, i);
    }
    forall i | 0 <= i < |c| ensures Has(b, c[i].key) && c[i].value.Mapping? {
      GetAt(c, i);
      var j := IndexOf(b, c[i].key);
      assert b[j].value.Mapping?;
      assert ServiceDerived(c[i].key, Get(b, c[i].key), Get(c, c[i].key), experiments);
    }
  }

  /** A derived service that changed was touched, and its override restores it. */
  lemma DerivedServiceRestorable(name: string, b: Value, c: Value, experiments: seq<Record>)
    requires b.Mapping? && Valid(b) && Valid(c) && ServiceDerived(name, b, c, experiments) && !Same(b, c)
    requires (exists key :: Touched(experiments, name, key)) ==> !IsReset(b)
    ensures ServiceRestorable(b, c)
  {
    if !EntriesDiffer(b.entries, c.entries) {
      NoDifferenceIsSame(b, c);
    }
    DifferenceTouched(name, b, c, experiments);
    forall i | 0 <= i < |c.entries|
      ensures RestorableEntry(b.entries, c.entries[i], true, 0)
    {
      var e := c.entries[i];
      GetAt(c.entries, i);
      assert KeyDerived(name, b.entries, c.entries, experiments, e.key);
      if !Touched(experiments, name, e.key) {
        SameMeaningSameCanon(Get(b.entries, e.key), e.value);
      }
    }
  }

  lemma DifferenceTouched(name: string, b: Value, c: Value, experiments: seq<Record>)
    requires b.Mapping? && Valid(b) && Valid(c) && ServiceDerived(name, b, c, experiments) && !Same(b, c)
    ensures exists key :: Touched(experiments, name, key)
  {
    if forall key :: !Touched(experiments, name, key) {
      forall k
        ensures k in MeaningFields(b.entries) <==> k in MeaningFields(c.entries)
        ensures k in MeaningFields(b.entries) ==> MeaningFields(b.entries)[k] == MeaningFields(c.entries)[k]
      {
        assert KeyDerived(name, b.entries, c.entries, experiments, k);
      }
      MapsEqual(MeaningFields(b.entries), MeaningFields(c.entries));
      SameMeaningSameCanon(b, c);
    }
  }

  /** A document derived from the baseline by kept mutations, and different from it, has a
      cumulative override, and merging that over the baseline gives the document back. */
  lemma DerivedRestored(base: Value, doc: Value, experiments: seq<Record>, combine: Combine)
    requires Valid(base) && Valid(doc) && Derived(base, doc, experiments)
    requires CanonicalForm(base).Ok? && CanonicalForm(doc).Ok?
    requires AllMappings(ServicesOf(base)) && FrameLive(base) && TouchedLive(base, experiments)
    requires exists name :: Has(ServicesOf(base), name) && !Same(Get(ServicesOf(base), name), Get(ServicesOf(doc), name))
    ensures DocumentRestored(base, doc, combine)
  {
    DerivedChanged(base, doc, experiments);
    DerivedFrameLive(base, doc, experiments);
    CumulativeOverlayRestoresIff(base, doc, combine);
  }

  lemma DerivedFrameLive(base: Value, doc: Value, experiments: seq<Record>)
    requires Derived(base, doc, experiments) && FrameLive(base)
    ensures FrameLive(doc)
  {
  }

  lemma DerivedChanged(base: Value, doc: Value, experiments: seq<Record>)
    requires Valid(base) && Valid(doc) && Derived(base, doc, experiments)
    requires CanonicalForm(base).Ok? && CanonicalForm(doc).Ok?
    requires AllMappings(ServicesOf(base)) && TouchedLive(base, experiments)
    requires exists name :: Has(ServicesOf(base), name) && !Same(Get(ServicesOf(base), name), Get(ServicesOf(doc), name))
    ensures ChangedServices(base, doc).Ok? && ChangedServices(base, doc).value != []
    ensures ServicesRestorable(base, doc)
  {
    DerivedFrame(base, doc, experiments);
    ChangedServicesExact(base, doc);
    ServicesValid(base);
    ServicesValid(doc);
    var differing :| Has(ServicesOf(base), differing) &&
      !Same(Get(ServicesOf(base), differing), Get(ServicesOf(doc), differing));
    assert differing in ChangedServices(base, doc).value;
    ChangedRestorable(ServicesOf(base), ServicesOf(doc), ChangedServices(base, doc).value, experiments);
  }

  lemma ChangedRestorable(b: seq<Entry>, c: seq<Entry>, changed: seq<string>, experiments: seq<Record>)
    requires ValidEntries(b) && ValidEntries(c) && ServicesDerived(b, c, experiments) && AllMappings(b)
    requires forall name :: name in changed ==> Has(b, name) && Has(c, name) && !Same(Get(b, name), Get(c, name))
    requires forall name, key :: Touched(experiments, name, key) && Has(b, name) ==> !IsReset(Get(b, name))
    ensures forall name :: name in changed ==> ServiceRestorable(Get(b, name), Get(c, name))
  {
    forall name | name in changed
      ensures ServiceRestorable(Get(b, name), Get(c, name))
    {
      assert ServiceDerived(name, Get(b, name), Get(c, name), experiments);
      assert b[IndexOf(b, name)].value.Mapping?;
      DerivedServiceRestorable(name, Get(b, name), Get(c, name), experiments);
    }
  }
}
