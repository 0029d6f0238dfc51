/** When merging an override over its baseline gives back the candidate. */
module OverlayFaithful {
  import opened Basics
  import opened ComposeValues
  import opened ComposeMerge
  import opened Overlay

  // ----- the exact condition

  /** Some entry was added, dropped or given another value. */
  predicate EntriesDiffer(base: seq<Entry>, candidate: seq<Entry>) {
    || (exists i :: 0 <= i < |base| && !Has(candidate, base[i].key))
    || (exists i :: 0 <= i < |candidate| && !Kept(base, candidate[i]))
  }

  predicate Kept(base: seq<Entry>, e: Entry) {
    Has(base, e.key) && Same(Get(base, e.key), e.value)
  }

  /** `live` says that the baseline mapping counts: neither it nor a mapping around it is reset.
      Three things defeat an override: tags that leave nothing to write, a baseline
      mapping that is itself reset, and a candidate sequence that is. */
  predicate Restorable(base: seq<Entry>, candidate: seq<Entry>, live: bool, depth: nat)
    decreases candidate, 1
  {
    && depth < MAX_OPEN_COLLECTIONS
    && EntriesDiffer(base, candidate)
    && forall i :: 0 <= i < |candidate| ==> RestorableEntry(base, candidate[i], live, depth)
  }

  predicate RestorableEntry(base: seq<Entry>, e: Entry, live: bool, depth: nat)
    decreases e, 0
  {
    if Kept(base, e) then live || IsReset(e.value)
    else if Recurses(base, e) then
      var b := Get(base, e.key);
      Restorable(b.entries, e.value.entries, live && !IsReset(b), depth + 1)
    else !(e.value.List? && IsReset(e.value))
  }

  ghost predicate AllComparable(entries: seq<Entry>) {
    forall i :: 0 <= i < |entries| ==> Comparable(entries[i].value)
  }

  lemma NestedComparable(v: Value)
    requires v.Mapping? && Valid(v) && Comparable(v)
    ensures AllComparable(v.entries)
  {
    forall i | 0 <= i < |v.entries|
      ensures Comparable(v.entries[i].value)
    {
      GetAt(v.entries, i);
      ChildComparable(v, v.entries[i].key);
    }
  }

  // ----- the changes, key by key

  lemma HasSnoc(entries: seq<Entry>, e: Entry, key: string)
    ensures Has(entries + [e], key) <==> e.key == key || Has(entries, key)
    ensures Has(entries + [e], key) ==>
              Get(entries + [e], key) == if e.key == key then e.value else Get(entries, key)
  {
    assert (entries + [e])[..|entries|] == entries;
  }

  lemma {:induction false} HasAppend(a: seq<Entry>, b: seq<Entry>, key: string)
    ensures Has(a + b, key) <==> Has(a, key) || Has(b, key)
    ensures Has(a + b, key) ==> Get(a + b, key) == if Has(b, key) then Get(b, key) else Get(a, key)
  {
    if b == [] {
      assert a + b == a;
    } else {
      var init := b[..|b| - 1];
      assert b == init + [b[|b| - 1]];
      assert a + b == (a + init) + [b[|b| - 1]];
      HasAppend(a, init, key);
      HasSnoc(a + init, b[|b| - 1], key);
      HasSnoc(init, b[|b| - 1], key);
    }
  }

  lemma {:induction false} ResetsField(base: seq<Entry>, candidate: seq<Entry>, key: string)
    ensures Has(Resets(base, candidate), key) <==> Has(base, key) && !Has(candidate, key)
    ensures Has(Resets(base, candidate), key) ==> IsReset(Get(Resets(base, candidate), key))
  {
    if base != [] {
      var last := base[|base| - 1];
      ResetsField(base[..|base| - 1], candidate, key);
      HasAppend(Resets(base[..|base| - 1], candidate), if Has(candidate, last.key) then [] else [ResetEntry(last.key)], key);
      HasSnoc([], ResetEntry(last.key), key);
      assert [] + [ResetEntry(last.key)] == [ResetEntry(last.key)];
    }
  }

  lemma {:induction false} EditsField(base: seq<Entry>, candidate: seq<Entry>, depth: nat, key: string)
    requires ValidEntries(candidate) && Edits(base, candidate, depth).Ok?
    ensures var edits := Edits(base, candidate, depth).value;
            if Has(candidate, key)
            then var e := Entry(key, Get(candidate, key));
                 && Edit(base, e, depth).Ok?
                 && (Has(edits, key) <==> Edit(base, e, depth).value != [])
                 && (Has(edits, key) ==> Edit(base, e, depth).value == [Entry(key, Get(edits, key))])
            else !Has(edits, key)
  {
    if candidate != [] {
      var n := |candidate| - 1;
      var last := candidate[n];
      DistinctInit(candidate);
      EditsField(base, candidate[..n], depth, key);
      var before, entry := Edits(base, candidate[..n], depth).value, Edit(base, last, depth).value;
      EditShape(base, last, depth);
      HasAppend(before, entry, key);
      if entry != [] {
        HasSnoc([], entry[0], key);
        assert [] + [entry[0]] == entry;
      }
      if last.key == key {
        assert Entry(key, Get(candidate, key)) == last;
      }
    }
  }

  lemma EditShape(base: seq<Entry>, e: Entry, depth: nat)
    requires Edit(base, e, depth).Ok?
    ensures Edit(base, e, depth).value == [] ||
            (|Edit(base, e, depth).value| == 1 && Edit(base, e, depth).value[0].key == e.key)
  {
  }

  lemma {:induction false} EditsOk(base: seq<Entry>, candidate: seq<Entry>, depth: nat)
    ensures Edits(base, candidate, depth).Ok? <==>
            forall i :: 0 <= i < |candidate| ==> Edit(base, candidate[i], depth).Ok?
  {
    if candidate != [] {
      var n := |candidate| - 1;
      EditsOk(base, candidate[..n], depth);
      assert candidate == candidate[..n] + [candidate[n]];
    }
  }

  /** The override never names a key twice. */
  lemma {:induction false} EditsDistinct(base: seq<Entry>, candidate: seq<Entry>, depth: nat)
    requires ValidEntries(candidate) && Edits(base, candidate, depth).Ok?
    ensures Distinct(Keys(Edits(base, candidate, depth).value))
  {
    if candidate != [] {
      var n := |candidate| - 1;
      var last := candidate[n];
      DistinctInit(candidate);
      EditsDistinct(base, candidate[..n], depth);
      EditsField(base, candidate[..n], depth, last.key);
      EditShape(base, last, depth);
      DistinctAppend(Edits(base, candidate[..n], depth).value, Edit(base, last, depth).value);
    }
  }

  lemma DistinctAppend(a: seq<Entry>, b: seq<Entry>)
    requires Distinct(Keys(a)) && Distinct(Keys(b))
    requires forall i :: 0 <= i < |b| ==> !Has(a, b[i].key)
    ensures Distinct(Keys(a + b))
  {
    var c := a + b;
    forall i, j | 0 <= i < j < |c|
      ensures Keys(c)[i] != Keys(c)[j]
    {
      if j < |a| {
        assert Keys(a)[i] != Keys(a)[j];
      } else if i >= |a| {
        assert Keys(b)[i - |a|] != Keys(b)[j - |a|];
      } else {
        HasIffKey(a, b[j - |a|].key);
        assert Keys(a)[i] == c[i].key;
      }
    }
  }

  lemma {:induction false} ResetsDistinct(base: seq<Entry>, candidate: seq<Entry>)
    requires Distinct(Keys(base))
    ensures Distinct(Keys(Resets(base, candidate)))
  {
    if base != [] {
      var n := |base| - 1;
      DistinctInit(base);
      ResetsDistinct(base[..n], candidate);
      ResetsField(base[..n], candidate, base[n].key);
      if !Has(candidate, base[n].key) {
        DistinctAppend(Resets(base[..n], candidate), [ResetEntry(base[n].key)]);
      }
    }
  }

  lemma ChangesDistinct(base: seq<Entry>, candidate: seq<Entry>, depth: nat)
    requires ValidEntries(base) && ValidEntries(candidate) && ServiceChanges(base, candidate, depth).Ok?
    ensures Distinct(Keys(ServiceChanges(base, candidate, depth).value))
  {
    var edits := Edits(base, candidate, depth).value;
    ResetsDistinct(base, candidate);
    EditsDistinct(base, candidate, depth);
    forall i | 0 <= i < |edits|
      ensures !Has(Resets(base, candidate), edits[i].key)
    {
      ResetsField(base, candidate, edits[i].key);
      EditsField(base, candidate, depth, edits[i].key);
      HasIffKey(edits, edits[i].key);
      assert Keys(edits)[i] == edits[i].key;
    }
    DistinctAppend(Resets(base, candidate), edits);
  }

  /** The override mentions a key exactly when its value differs, and says how. */
  lemma ChangesField(base: seq<Entry>, candidate: seq<Entry>, depth: nat, key: string)
    requires ValidEntries(base) && ValidEntries(candidate)
    requires AllComparable(base) && AllComparable(candidate)
    requires ServiceChanges(base, candidate, depth).Ok?
    ensures var changes := ServiceChanges(base, candidate, depth).value;
            && (Has(changes, key) <==>
                if Has(candidate, key) then !Kept(base, Entry(key, Get(candidate, key))) else Has(base, key))
            && (Has(changes, key) ==>
                  if Has(candidate, key)
                  then Edit(base, Entry(key, Get(candidate, key)), depth) == Ok([Entry(key, Get(changes, key))])
                  else IsReset(Get(changes, key)))
  {
    ResetsField(base, candidate, key);
    EditsField(base, candidate, depth, key);
    HasAppend(Resets(base, candidate), Edits(base, candidate, depth).value, key);
    if Has(candidate, key) {
      EditIsEmpty(base, Entry(key, Get(candidate, key)), depth);
    }
  }

  lemma EditIsEmpty(base: seq<Entry>, e: Entry, depth: nat)
    requires ValidEntries(base) && AllComparable(base) && Valid(e.value) && Comparable(e.value)
    ensures Kept(base, e) ==> Edit(base, e, depth) == Ok([])
    ensures !Kept(base, e) ==> Edit(base, e, depth) != Ok([])
    ensures !Kept(base, e) && !Recurses(base, e) ==>
              Edit(base, e, depth) == Ok([Entry(e.key, OverrideValue(e.value))])
  {
    if Has(base, e.key) {
      CompareIsSame(Get(base, e.key), e.value);
    }
  }

  // ----- exactly when

  ghost function BaseFields(base: seq<Entry>, live: bool): map<string, Plain> {
    if live then EffectiveFields(base) else map[]
  }

  ghost predicate Restores(base: seq<Entry>, candidate: seq<Entry>, live: bool, depth: nat, combine: Combine) {
    var changes := ServiceChanges(base, candidate, depth);
    && changes.Ok?
    && MergeFields(BaseFields(base, live), changes.value, combine) == EffectiveFields(candidate)
  }

  /** What a key holds once one candidate entry's edit has been merged. */
  ghost function AfterEdit(base: seq<Entry>, e: Entry, live: bool, edit: seq<Entry>, combine: Combine): Option<Plain> {
    var was := FieldOf(BaseFields(base, live), e.key);
    if edit == [] then was else Merge(was, edit[0].value, combine)
  }

  /** The override of two mappings exists and restores the candidate iff they are `Restorable`. */
  lemma {:induction false} RestoresIffRestorable(
    base: seq<Entry>, candidate: seq<Entry>, live: bool, depth: nat, combine: Combine)
    requires ValidEntries(base) && ValidEntries(candidate)
    requires AllComparable(base) && AllComparable(candidate)
    ensures Restores(base, candidate, live, depth, combine) <==> Restorable(base, candidate, live, depth)
    decreases candidate, 1
  {
    if depth < MAX_OPEN_COLLECTIONS {
      EditsOk(base, candidate, depth);
      forall i | 0 <= i < |candidate|
        ensures RestorableEntry(base, candidate[i], live, depth) <==> EntryRestored(base, candidate[i], live, depth, combine)
      {
        EntryRestoredIff(base, candidate[i], live, depth, combine);
      }
      if Edits(base, candidate, depth).Ok? {
        ChangesExistIff(base, candidate, depth);
        if ServiceChanges(base, candidate, depth).Ok? {
          FieldsRestoredIff(base, candidate, live, depth, combine);
        }
      }
    }
  }

  ghost predicate EntryRestored(base: seq<Entry>, e: Entry, live: bool, depth: nat, combine: Combine) {
    && Edit(base, e, depth).Ok?
    && AfterEdit(base, e, live, Edit(base, e, depth).value, combine) == Effective(e.value)
  }

  lemma KeptRestoredIff(base: seq<Entry>, e: Entry, live: bool, depth: nat, combine: Combine)
    requires ValidEntries(base) && AllComparable(base) && Valid(e.value) && Comparable(e.value) && Kept(base, e)
    ensures RestorableEntry(base, e, live, depth) <==> EntryRestored(base, e, live, depth, combine)
  {
    EditIsEmpty(base, e, depth);
    EffectiveField(base, e.key);
    CanonicalIffSameUpToKeyOrder(Get(base, e.key), e.value);
    SameMeaningSameEffect(Get(base, e.key), e.value);
  }

  lemma NestedEdit(base: seq<Entry>, e: Entry, depth: nat)
    requires ValidEntries(base) && AllComparable(base) && Valid(e.value) && Comparable(e.value)
    requires !Kept(base, e) && Recurses(base, e)
    ensures var nested := ServiceChanges(Get(base, e.key).entries, e.value.entries, depth + 1);
            && (Edit(base, e, depth).Ok? <==> nested.Ok?)
            && (nested.Ok? ==> Edit(base, e, depth) == Ok([Entry(e.key, Mapping(None, nested.value))]))
  {
    CompareIsSame(Get(base, e.key), e.value);
  }

  lemma NestedBase(base: seq<Entry>, e: Entry, live: bool)
    requires Recurses(base, e)
    ensures FieldsOf(FieldOf(BaseFields(base, live), e.key)) ==
            BaseFields(Get(base, e.key).entries, live && !IsReset(Get(base, e.key)))
  {
    EffectiveField(base, e.key);
  }

  lemma NestedRestoredIff(base: seq<Entry>, e: Entry, live: bool, depth: nat, combine: Combine)
    requires ValidEntries(base) && AllComparable(base) && Valid(e.value) && Comparable(e.value)
    requires !Kept(base, e) && Recurses(base, e)
    requires var b := Get(base, e.key);
             var inner := live && !IsReset(b);
             Restores(b.entries, e.value.entries, inner, depth + 1, combine) <==> Restorable(b.entries, e.value.entries, inner, depth + 1)
    ensures RestorableEntry(base, e, live, depth) <==> EntryRestored(base, e, live, depth, combine)
  {
    NestedEdit(base, e, depth);
    var nested := ServiceChanges(Get(base, e.key).entries, e.value.entries, depth + 1);
    if nested.Ok? { NestedMerged(base, e, live, nested.value, combine); }
  }

  /** What merging a nested override gives, and what it should give. */
  lemma NestedMerged(base: seq<Entry>, e: Entry, live: bool, changes: seq<Entry>, combine: Combine)
    requires Recurses(base, e)
    ensures var inner := BaseFields(Get(base, e.key).entries, live && !IsReset(Get(base, e.key)));
            AfterEdit(base, e, live, [Entry(e.key, Mapping(None, changes))], combine) == Effective(e.value) <==>
            MergeFields(inner, changes, combine) == EffectiveFields(e.value.entries)
  {
    NestedBase(base, e, live);
  }

  lemma WrittenRestoredIff(base: seq<Entry>, e: Entry, live: bool, depth: nat, combine: Combine)
    requires ValidEntries(base) && AllComparable(base) && Valid(e.value) && Comparable(e.value)
    requires !Kept(base, e) && !Recurses(base, e)
    ensures RestorableEntry(base, e, live, depth) <==> EntryRestored(base, e, live, depth, combine)
  {
    EditIsEmpty(base, e, depth);
    EffectiveField(base, e.key);
    OverrideRestores(FieldOf(BaseFields(base, live), e.key), e.value, combine);
  }

  lemma {:induction false} EntryRestoredIff(
    base: seq<Entry>, e: Entry, live: bool, depth: nat, combine: Combine)
    requires ValidEntries(base) && AllComparable(base) && Valid(e.value) && Comparable(e.value)
    ensures RestorableEntry(base, e, live, depth) <==> EntryRestored(base, e, live, depth, combine)
    decreases e, 0
  {
    if Kept(base, e) {
      KeptRestoredIff(base, e, live, depth, combine);
    } else if Recurses(base, e) {
      var b := Get(base, e.key);
      NestedComparable(b);
      NestedComparable(e.value);
      RestoresIffRestorable(b.entries, e.value.entries, live && !IsReset(b), depth + 1, combine);
      NestedRestoredIff(base, e, live, depth, combine);
    } else {
      WrittenRestoredIff(base, e, live, depth, combine);
    }
  }

  /** Writing a value over anything it does not merge into yields the value, unless it is a reset sequence. */
  lemma OverrideRestores(was: Option<Plain>, v: Value, combine: Combine)
    requires Valid(v)
    requires v.Mapping? && TagOf(v) == None ==> FieldsOf(was) == map[]
    requires Supported(v)
    ensures Merge(was, OverrideValue(v), combine) == Effective(v) <==> !(v.List? && IsReset(v))
  {
    if v.Mapping? && TagOf(v) == None {
      MergeOverNothing(was, v, combine);
    }
  }

  lemma ChangesExistIff(base: seq<Entry>, candidate: seq<Entry>, depth: nat)
    requires ValidEntries(base) && ValidEntries(candidate)
    requires AllComparable(base) && AllComparable(candidate)
    requires depth < MAX_OPEN_COLLECTIONS && Edits(base, candidate, depth).Ok?
    ensures ServiceChanges(base, candidate, depth).Ok? <==> EntriesDiffer(base, candidate)
  {
    var changes := Resets(base, candidate) + Edits(base, candidate, depth).value;
    if EntriesDiffer(base, candidate) {
      if i :| 0 <= i < |base| && !Has(candidate, base[i].key) {
        GetAt(base, i);
        ResetsField(base, candidate, base[i].key);
      } else {
        var i :| 0 <= i < |candidate| && !Kept(base, candidate[i]);
        GetAt(candidate, i);
        EditIsEmpty(base, candidate[i], depth);
        EditsField(base, candidate, depth, candidate[i].key);
        assert Entry(candidate[i].key, Get(candidate, candidate[i].key)) == candidate[i];
      }
      assert changes != [];
    }
    if changes != [] {
      var key := changes[0].key;
      HasIffKey(changes, key);
      assert Keys(changes)[0] == key;
      ChangesField(base, candidate, depth, key);
      if Has(candidate, key) {
        assert !Kept(base, candidate[IndexOf(candidate, key)]);
      } else {
        assert !Has(candidate, base[IndexOf(base, key)].key);
      }
    }
  }

  lemma FieldsRestoredIff(base: seq<Entry>, candidate: seq<Entry>, live: bool, depth: nat, combine: Combine)
    requires ValidEntries(base) && ValidEntries(candidate)
    requires AllComparable(base) && AllComparable(candidate)
    requires ServiceChanges(base, candidate, depth).Ok?
    ensures Restores(base, candidate, live, depth, combine) <==>
            forall i :: 0 <= i < |candidate| ==> EntryRestored(base, candidate[i], live, depth, combine)
  {
    var changes := ServiceChanges(base, candidate, depth).value;
    var merged := MergeFields(BaseFields(base, live), changes, combine);
    if Restores(base, candidate, live, depth, combine) {
      forall i | 0 <= i < |candidate|
        ensures EntryRestored(base, candidate[i], live, depth, combine)
      {
        GetAt(candidate, i);
        MergedKey(base, candidate, live, depth, candidate[i].key, combine);
        assert Entry(candidate[i].key, Get(candidate, candidate[i].key)) == candidate[i];
      }
    }
    if forall i :: 0 <= i < |candidate| ==> EntryRestored(base, candidate[i], live, depth, combine) {
      forall key
        ensures FieldOf(merged, key) == FieldOf(EffectiveFields(candidate), key)
      {
        MergedKey(base, candidate, live, depth, key, combine);
        if Has(candidate, key) {
          var i := IndexOf(candidate, key);
          assert candidate[i] == Entry(key, Get(candidate, key));
          assert EntryRestored(base, candidate[i], live, depth, combine);
        }
      }
      FieldsEqual(merged, EffectiveFields(candidate));
    }
  }

  lemma MergedKey(base: seq<Entry>, candidate: seq<Entry>, live: bool, depth: nat, key: string, combine: Combine)
    requires ValidEntries(base) && ValidEntries(candidate)
    requires AllComparable(base) && AllComparable(candidate)
    requires ServiceChanges(base, candidate, depth).Ok?
    ensures var changes := ServiceChanges(base, candidate, depth).value;
            var after := FieldOf(MergeFields(BaseFields(base, live), changes, combine), key);
            && FieldOf(EffectiveFields(candidate), key) ==
               (if Has(candidate, key) then Effective(Get(candidate, key)) else None)
            && if Has(candidate, key)
               then var e := Entry(key, Get(candidate, key));
                    && Edit(base, e, depth).Ok?
                    && after == AfterEdit(base, e, live, Edit(base, e, depth).value, combine)
               else after == None
  {
    var changes := ServiceChanges(base, candidate, depth).value;
    ChangesDistinct(base, candidate, depth);
    ChangesField(base, candidate, depth, key);
    EditsField(base, candidate, depth, key);
    MergedField(BaseFields(base, live), changes, key, combine);
    EffectiveField(candidate, key);
    EffectiveField(base, key);
    if Has(candidate, key) {
      EditIsEmpty(base, Entry(key, Get(candidate, key)), depth);
    }
  }

  // ----- documents without tags always come back

  predicate Untagged(v: Value) {
    && TagOf(v) == None
    && match v
       case List(_, items) => forall i :: 0 <= i < |items| ==> Untagged(items[i])
       case Mapping(_, entries) => forall i :: 0 <= i < |entries| ==> Untagged(entries[i].value)
       case _ => true
  }

  /** Tags may sit on scalars and sequences, but on no mapping reached through mappings. */
  predicate MappingsUntagged(v: Value) {
    v.Mapping? ==> v.mark == None && forall i :: 0 <= i < |v.entries| ==> MappingsUntagged(v.entries[i].value)
  }

  predicate MappingsWithin(v: Value, levels: nat) {
    v.Mapping? ==> levels > 0 && forall i :: 0 <= i < |v.entries| ==> MappingsWithin(v.entries[i].value, levels - 1)
  }

  /** Equal entry by entry, hence equal. */
  lemma NoDifferenceIsSame(a: Value, b: Value)
    requires a.Mapping? && b.Mapping? && Valid(a) && Valid(b) && a.mark == b.mark
    requires !EntriesDiffer(a.entries, b.entries)
    ensures Same(a, b)
  {
    forall k
      ensures k in MeaningFields(a.entries) <==> k in MeaningFields(b.entries)
      ensures k in MeaningFields(a.entries) && k in MeaningFields(b.entries) ==>
                MeaningFields(a.entries)[k] == MeaningFields(b.entries)[k]
    {
      if Has(a.entries, k) {
        assert Has(b.entries, a.entries[IndexOf(a.entries, k)].key);
      }
      if Has(b.entries, k) {
        assert Kept(a.entries, b.entries[IndexOf(b.entries, k)]);
        CanonicalIffSameUpToKeyOrder(Get(a.entries, k), Get(b.entries, k));
      }
    }
    assert MeaningFields(a.entries) == MeaningFields(b.entries);
    CanonicalIffSameUpToKeyOrder(a, b);
  }

  /** Without tags on the baseline's mappings or anywhere in the candidate, and within the
      nesting limit, any difference can be written and merged back. */
  lemma {:induction false} UntaggedRestorable(base: seq<Entry>, candidate: seq<Entry>, depth: nat)
    requires ValidEntries(base) && ValidEntries(candidate) && EntriesDiffer(base, candidate)
    requires forall i :: 0 <= i < |base| ==> MappingsUntagged(base[i].value)
    requires forall i :: 0 <= i < |candidate| ==> Untagged(candidate[i].value)
    requires depth < MAX_OPEN_COLLECTIONS
    requires forall i :: 0 <= i < |candidate| ==> MappingsWithin(candidate[i].value, MAX_OPEN_COLLECTIONS - 1 - depth)
    ensures Restorable(base, candidate, true, depth)
    decreases candidate
  {
    forall i | 0 <= i < |candidate|
      ensures RestorableEntry(base, candidate[i], true, depth)
    {
      var e := candidate[i];
      if !Kept(base, e) && Recurses(base, e) {
        var b := Get(base, e.key);
        if !EntriesDiffer(b.entries, e.value.entries) {
          NoDifferenceIsSame(b, e.value);
        }
        UntaggedRestorable(b.entries, e.value.entries, depth + 1);
      }
    }
  }

  // ----- and tags are what can go wrong

  /** Dropping only a mapping's tag is a change of value that no override can be written for. */
  lemma TagOnlyChangeIsRefused(key: string, tag: string, entries: seq<Entry>)
    requires ValidEntries(entries) && Comparable(Mapping(Some(tag), entries)) && Comparable(Mapping(None, entries))
    ensures var base, candidate := [Entry(key, Mapping(Some(tag), entries))], [Entry(key, Mapping(None, entries))];
            && EntriesDiffer(base, candidate)
            && ServiceChanges(base, candidate, 0) == Err(CandidateUnchanged)
  {
    var b, c := Mapping(Some(tag), entries), Mapping(None, entries);
    var base, candidate := [Entry(key, b)], [Entry(key, c)];
    CompareIsSame(b, c);
    assert !Same(b, c);
    assert !Kept(base, candidate[0]);
    NestedComparable(c);
    assert !EntriesDiffer(entries, entries) by {
      forall i | 0 <= i < |entries| ensures Has(entries, entries[i].key) && Kept(entries, entries[i]) {
        GetAt(entries, i);
      }
    }
    NestedComparable(b);
    EditsOk(entries, entries, 1);
    forall i | 0 <= i < |entries| ensures Edit(entries, entries[i], 1).Ok? {
      GetAt(entries, i);
      EditIsEmpty(entries, entries[i], 1);
    }
    ChangesExistIff(entries, entries, 1);
    assert ServiceChanges(entries, entries, 1) == Err(CandidateUnchanged);
    EditsOne(base, candidate[0], 0);
  }

  lemma EditsOne(base: seq<Entry>, e: Entry, depth: nat)
    ensures Edit(base, e, depth).Err? ==> Edits(base, [e], depth) == Err(Edit(base, e, depth).error)
  {
    var one := [e];
    assert one[..|one| - 1] == [];
  }

  /** A baseline mapping that is itself reset lends nothing to what is merged over it. */
  lemma ResetMappingIsNotRestored(combine: Combine)
    ensures var kept := Entry("a", Atom(Int(1)));
            var base := [Entry("x", Mapping(Some("!reset"), [kept]))];
            var candidate := [Entry("x", Mapping(None, [kept, Entry("b", Atom(Int(2)))]))];
            EntriesDiffer(base, candidate) && !Restores(base, candidate, true, 0, combine)
  {
    var kept, added := Entry("a", Atom(Int(1))), Entry("b", Atom(Int(2)));
    var b, c := Mapping(Some("!reset"), [kept]), Mapping(None, [kept, added]);
    var base, candidate := [Entry("x", b)], [Entry("x", c)];
    assert Get(base, "x") == b && Has(base, "x");
    assert !Same(b, c);
    assert !Kept(base, candidate[0]);
    assert c.entries[0] == kept && Kept(b.entries, kept);
    assert !RestorableEntry(b.entries, c.entries[0], false, 1);
    assert !Restorable(base, candidate, true, 0) by {
      assert Recurses(base, candidate[0]);
      assert !RestorableEntry(base, candidate[0], true, 0);
    }
    assert Keys(b.entries) == ["a"] && Keys(c.entries) == ["a", "b"] && Keys(base) == ["x"] && Keys(candidate) == ["x"];
    assert Valid(b) && Valid(c);
    SmallComparable(b);
    SmallComparable(c);
    RestoresIffRestorable(base, candidate, true, 0, combine);
  }

  /** A mapping of at most two untagged integers, under any known tag, is well within the budget. */
  lemma SmallComparable(v: Value)
    requires v.Mapping? && TagAllowed(v.mark) && 1 <= |v.entries| <= 2
    requires forall i :: 0 <= i < |v.entries| ==> v.entries[i].value.Atom? && v.entries[i].value.scalar.Int?
    ensures Comparable(v)
  {
    var pairs := CanonPairs(SortedKeys(v.entries), v.entries);
    forall i | 0 <= i < |pairs| ensures Nodes(pairs[i].node) == 1 {
      var key := SortedKeys(v.entries)[i];
      assert key in SortedKeys(v.entries);
      var j := IndexOf(v.entries, key);
      assert v.entries[j].value.Atom?;
    }
    forall i | 0 <= i < |v.entries| ensures Supported(v.entries[i].value) {
      assert v.entries[i].value.Atom? && v.entries[i].value.scalar.Int?;
    }
    NodesOfPairsStep(pairs, 0);
    assert pairs[..1] == if |pairs| == 1 then pairs else pairs[..1];
    if |pairs| == 2 {
      NodesOfPairsStep(pairs, 1);
      assert pairs[..2] == pairs;
    }
    assert pairs[..0] == [];
  }

  /** A sequence the candidate resets comes back as the sequence itself. */
  lemma ResetSequenceIsNotRestored(base: seq<Entry>, key: string, items: seq<Value>, depth: nat, combine: Combine)
    requires ValidEntries(base) && AllComparable(base)
    requires Valid(List(Some("!reset"), items)) && Comparable(List(Some("!reset"), items))
    requires !Kept(base, Entry(key, List(Some("!reset"), items)))
    ensures !Restores(base, [Entry(key, List(Some("!reset"), items))], true, depth, combine)
  {
    var e := Entry(key, List(Some("!reset"), items));
    var candidate := [e];
    assert Keys(candidate) == [key];
    assert !RestorableEntry(base, candidate[0], true, depth);
    RestoresIffRestorable(base, candidate, true, depth, combine);
  }
}
