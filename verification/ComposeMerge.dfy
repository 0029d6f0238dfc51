/** What a Compose file, and a file merged over another, stand for: the "Merge"
    section of the Compose Specification with its subsections "Reset value" and
    "Replace value".  Tags are directives, so what they produce carries none. */
module ComposeMerge {
  import opened Basics
  import opened ComposeValues

  datatype Plain =
    | PAtom(scalar: Scalar)
    | PList(items: seq<Plain>)
    | PMap(fields: map<string, Plain>)

  /** How two untagged sequences combine; every claim below holds for all such rules. */
  type Combine = (seq<Plain>, seq<Plain>) -> seq<Plain>

  predicate IsReset(v: Value) {
    TagOf(v) == Some("!reset")
  }

  predicate IsOverride(v: Value) {
    TagOf(v) == Some("!override")
  }

  /** The value a file on its own gives a key, or None when the key is reset. */
  ghost function Effective(v: Value): Option<Plain>
    decreases v, 0
  {
    if IsReset(v) then None else
    match v
    case Atom(s) => Some(PAtom(s))
    case Tagged(_, s) => Some(PAtom(s))
    case List(_, items) => Some(PList(EffectiveItems(items)))
    case Mapping(_, entries) => Some(PMap(EffectiveFields(entries)))
  }

  ghost function EffectiveItems(items: seq<Value>): seq<Plain>
    decreases items, 0
  {
    if items == [] then [] else
      var last := Effective(items[|items| - 1]);
      EffectiveItems(items[..|items| - 1]) + (if last.Some? then [last.value] else [])
  }

  ghost function EffectiveFields(entries: seq<Entry>): map<string, Plain>
    decreases entries, 0
  {
    if entries == [] then map[] else
      var last := entries[|entries| - 1];
      SetField(EffectiveFields(entries[..|entries| - 1]), last.key, Effective(last.value))
  }

  ghost function SetField(m: map<string, Plain>, key: string, v: Option<Plain>): map<string, Plain> {
    if v.Some? then m[key := v.value] else m - {key}
  }

  ghost function FieldOf(m: map<string, Plain>, key: string): Option<Plain> {
    if key in m then Some(m[key]) else None
  }

  ghost function FieldsOf(p: Option<Plain>): map<string, Plain> {
    if p.Some? && p.value.PMap? then p.value.fields else map[]
  }

  /** `over` merged on top of `base`. */
  ghost function Merge(base: Option<Plain>, over: Value, combine: Combine): Option<Plain>
    decreases over, 0
  {
    if IsReset(over) || IsOverride(over) then Effective(over) else
    match over
    case Atom(s) => Some(PAtom(s))
    case Tagged(_, s) => Some(PAtom(s))
    case List(_, items) =>
      if base.Some? && base.value.PList?
      then Some(PList(combine(base.value.items, EffectiveItems(items))))
      else Effective(over)
    case Mapping(_, entries) => Some(PMap(MergeFields(FieldsOf(base), entries, combine)))
  }

  ghost function MergeFields(base: map<string, Plain>, entries: seq<Entry>, combine: Combine): map<string, Plain>
    decreases entries, 0
  {
    if entries == [] then base else
      var last := entries[|entries| - 1];
      var before := MergeFields(base, entries[..|entries| - 1], combine);
      SetField(before, last.key, Merge(FieldOf(before, last.key), last.value, combine))
  }

  // ----- key by key

  lemma {:induction false} EffectiveField(entries: seq<Entry>, key: string)
    ensures FieldOf(EffectiveFields(entries), key) ==
            if Has(entries, key) then Effective(Get(entries, key)) else None
  {
    if entries != [] {
      EffectiveField(entries[..|entries| - 1], key);
    }
  }

  lemma {:induction false} MergedField(base: map<string, Plain>, entries: seq<Entry>, key: string, combine: Combine)
    requires Distinct(Keys(entries))
    ensures FieldOf(MergeFields(base, entries, combine), key) ==
            if Has(entries, key) then Merge(FieldOf(base, key), Get(entries, key), combine) else FieldOf(base, key)
  {
    if entries != [] {
      var init := entries[..|entries| - 1];
      DistinctInit(entries);
      MergedField(base, init, key, combine);
      if Has(init, key) {
        var i := IndexOf(init, key);
        assert Keys(entries)[i] == key;
        assert Keys(entries)[|entries| - 1] == entries[|entries| - 1].key;
      }
    }
  }

  lemma DistinctInit(entries: seq<Entry>)
    requires entries != [] && Distinct(Keys(entries))
    ensures Distinct(Keys(entries[..|entries| - 1]))
    ensures !Has(entries[..|entries| - 1], entries[|entries| - 1].key)
  {
    var init := entries[..|entries| - 1];
    HasIffKey(init, entries[|entries| - 1].key);
    forall i | 0 <= i < |init|
      ensures Keys(init)[i] != entries[|entries| - 1].key
    {
      assert Keys(init)[i] == Keys(entries)[i] && Keys(entries)[|init|] == entries[|init|].key;
    }
    forall i, j | 0 <= i < j < |init|
      ensures Keys(init)[i] != Keys(init)[j]
    {
      assert Keys(init)[i] == Keys(entries)[i] && Keys(init)[j] == Keys(entries)[j];
    }
  }

  lemma FieldsEqual(a: map<string, Plain>, b: map<string, Plain>)
    requires forall k :: FieldOf(a, k) == FieldOf(b, k)
    ensures a == b
  {
    forall k ensures k in a <==> k in b {
      assert FieldOf(a, k) == FieldOf(b, k);
    }
    forall k | k in a ensures a[k] == b[k] {
      assert FieldOf(a, k) == FieldOf(b, k);
    }
  }

  /** Merged over nothing, a file is what it is on its own. */
  lemma {:induction false} MergeOverNothing(base: Option<Plain>, v: Value, combine: Combine)
    requires Valid(v)
    requires v.Mapping? ==> FieldsOf(base) == map[]
    requires v.List? ==> !(base.Some? && base.value.PList?) || IsOverride(v)
    ensures Merge(base, v, combine) == Effective(v)
    decreases v, 0
  {
    if v.Mapping? && !IsReset(v) && !IsOverride(v) {
      forall k
        ensures FieldOf(MergeFields(map[], v.entries, combine), k) == FieldOf(EffectiveFields(v.entries), k)
      {
        MergedField(map[], v.entries, k, combine);
        EffectiveField(v.entries, k);
        if Has(v.entries, k) {
          MergeOverNothing(None, Get(v.entries, k), combine);
        }
      }
      FieldsEqual(MergeFields(map[], v.entries, combine), EffectiveFields(v.entries));
    }
  }

  /** What a file stands for does not depend on key order. */
  lemma {:induction false} SameMeaningSameEffect(a: Value, b: Value)
    requires Valid(a) && Valid(b) && Meaning(a) == Meaning(b)
    ensures Effective(a) == Effective(b)
    decreases a, 0
  {
    match a
    case Atom(_) =>
    case Tagged(_, _) =>
    case List(_, items) =>
      SameItemsSameEffect(items, b.items);
    case Mapping(_, entries) =>
      forall k
        ensures FieldOf(EffectiveFields(entries), k) == FieldOf(EffectiveFields(b.entries), k)
      {
        EffectiveField(entries, k);
        EffectiveField(b.entries, k);
        assert Has(entries, k) <==> k in MeaningFields(entries);
        assert Has(b.entries, k) <==> k in MeaningFields(b.entries);
        if Has(entries, k) {
          assert MeaningFields(entries)[k] == MeaningFields(b.entries)[k];
          SameMeaningSameEffect(Get(entries, k), Get(b.entries, k));
        }
      }
      FieldsEqual(EffectiveFields(entries), EffectiveFields(b.entries));
  }

  lemma {:induction false} SameItemsSameEffect(a: seq<Value>, b: seq<Value>)
    requires forall i :: 0 <= i < |a| ==> Valid(a[i])
    requires forall i :: 0 <= i < |b| ==> Valid(b[i])
    requires MeaningItems(a) == MeaningItems(b)
    ensures EffectiveItems(a) == EffectiveItems(b)
    decreases a, 0
  {
    assert |a| == |MeaningItems(a)| == |b|;
    if a != [] {
      var n := |a| - 1;
      assert MeaningItems(a)[n] == Meaning(a[n]) && MeaningItems(b)[n] == Meaning(b[n]);
      assert MeaningItems(a[..n]) == MeaningItems(a)[..n];
      assert MeaningItems(b[..n]) == MeaningItems(b)[..n];
      SameMeaningSameEffect(a[n], b[n]);
      SameItemsSameEffect(a[..n], b[..n]);
    }
  }
}
