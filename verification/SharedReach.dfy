/** What a change of one shared object does to everything that refers to it. */
module SharedReach {
  import opened Basics
  import opened ComposeValues
  import opened SharedMutation

  /** The reference is to the object `v`, or to one that refers to it, however indirectly. */
  ghost predicate Reaches(heap: Heap, r: Ref, v: nat)
    decreases Height(heap, r), 1
  {
    r.At? && (r.id == v || (r.id < |heap| && FieldReaches(heap, r.id, v)))
  }

  ghost predicate FieldReaches(heap: Heap, i: nat, v: nat)
    requires i < |heap|
    decreases heap[i].depth + 1, 0
  {
    exists k :: 0 <= k < |heap[i].fields| && Below(heap, heap[i].fields[k].ref, heap[i].depth)
                && Reaches(heap, heap[i].fields[k].ref, v)
  }

  lemma FieldOfReaching(heap: Heap, i: nat, v: nat, k: nat)
    requires Sound(heap) && i < |heap| && k < |heap[i].fields| && Reaches(heap, heap[i].fields[k].ref, v)
    ensures Reaches(heap, At(i), v)
  {
    assert AllBelow(heap, heap[i].fields, heap[i].depth) && Below(heap, heap[i].fields[k].ref, heap[i].depth);
  }

  /** Nothing refers back up to an object that nests deeper. */
  lemma {:induction false} ReachesDown(heap: Heap, r: Ref, v: nat)
    requires Sound(heap) && Within(heap, r) && Reaches(heap, r, v)
    ensures v < |heap| && heap[v].depth < Height(heap, r)
    decreases Height(heap, r)
  {
    if r.id != v {
      var fields, d := heap[r.id].fields, heap[r.id].depth;
      var k :| 0 <= k < |fields| && Below(heap, fields[k].ref, d) && Reaches(heap, fields[k].ref, v);
      ReachesDown(heap, fields[k].ref, v);
    }
  }

  // ----- the objects that do not reach it stay what they are

  /** `after` is `heap` but for the object `v`, and perhaps more objects. */
  ghost predicate ChangedAt(heap: Heap, after: Heap, v: nat) {
    && |heap| <= |after|
    && forall i :: 0 <= i < |heap| && i != v ==> after[i] == heap[i]
  }

  ghost function Apart(heap: Heap, v: nat): nat -> bool {
    (i: nat) => !Reaches(heap, At(i), v)
  }

  lemma {:induction false} ApartIsKept(heap: Heap, after: Heap, v: nat)
    requires Sound(heap) && ChangedAt(heap, after, v)
    ensures Kept(heap, after, Apart(heap, v)) && Closed(heap, Apart(heap, v)) && !Apart(heap, v)(v)
  {
    var p := Apart(heap, v);
    forall i | 0 <= i < |heap| && p(i)
      ensures after[i] == heap[i]
      ensures forall k :: 0 <= k < |heap[i].fields| && heap[i].fields[k].ref.At? ==> p(heap[i].fields[k].ref.id)
    {
      forall k | 0 <= k < |heap[i].fields| && heap[i].fields[k].ref.At? ensures p(heap[i].fields[k].ref.id) {
        if Reaches(heap, heap[i].fields[k].ref, v) { FieldOfReaching(heap, i, v, k); }
      }
    }
  }

  lemma {:induction false} UnreachedUnfolds(heap: Heap, after: Heap, v: nat, r: Ref)
    requires Sound(heap) && Sound(after) && ChangedAt(heap, after, v) && Within(heap, r) && !Reaches(heap, r, v)
    ensures Within(after, r) && Unfold(after, r) == Unfold(heap, r)
  {
    ApartIsKept(heap, after, v);
    KeptUnfolds(heap, after, Apart(heap, v), r);
  }

  // ----- and all the others mean something else

  ghost predicate MeansOther(heap: Heap, after: Heap, r: Ref)
    requires Sound(heap) && Sound(after)
  {
    Within(heap, r) && Within(after, r) && Meaning(Unfold(after, r)) != Meaning(Unfold(heap, r))
  }

  /** One field that means something else makes the whole mapping or list mean something else. */
  lemma {:induction false} EntryDiffers(a: seq<Entry>, b: seq<Entry>, k: nat, mark: Option<string>)
    requires Keys(a) == Keys(b) && Distinct(Keys(b)) && k < |a| && |a| == |b| && Meaning(a[k].value) != Meaning(b[k].value)
    ensures Meaning(Mapping(mark, a)) != Meaning(Mapping(mark, b))
  {
    assert Keys(a)[k] == a[k].key && Keys(b)[k] == b[k].key;
    GetAt(a, k);
    GetAt(b, k);
    assert MeaningFields(a)[a[k].key] != MeaningFields(b)[a[k].key];
  }

  lemma {:induction false} ItemDiffers(a: seq<Value>, b: seq<Value>, k: nat, mark: Option<string>)
    requires k < |a| && |a| == |b| && Meaning(a[k]) != Meaning(b[k])
    ensures Meaning(List(mark, a)) != Meaning(List(mark, b))
  {
    assert MeaningItems(a)[k] != MeaningItems(b)[k];
  }

  lemma {:induction false} SameFieldsSameKeys(heap: Heap, after: Heap, fields: seq<Field>, d: nat)
    requires Sound(heap) && Sound(after) && AllBelow(heap, fields, d) && AllBelow(after, fields, d)
    ensures Keys(UnfoldFields(after, fields, d)) == Keys(UnfoldFields(heap, fields, d))
  {
    var a, b := Keys(UnfoldFields(after, fields, d)), Keys(UnfoldFields(heap, fields, d));
    forall k | 0 <= k < |a| ensures a[k] == b[k] {}
  }

  /** The object one level up. */
  lemma {:induction false} ParentDiffers(heap: Heap, after: Heap, i: nat, k: nat)
    requires Sound(heap) && Sound(after) && i < |heap| <= |after| && after[i] == heap[i]
    requires Valid(Unfold(heap, At(i))) && k < |heap[i].fields| && MeansOther(heap, after, heap[i].fields[k].ref)
    ensures MeansOther(heap, after, At(i))
  {
    var fields, d := heap[i].fields, heap[i].depth;
    assert AllBelow(heap, fields, d) && AllBelow(after, after[i].fields, d);
    var a, b := UnfoldFields(after, fields, d), UnfoldFields(heap, fields, d);
    SameFieldsSameKeys(heap, after, fields, d);
    assert a[k].value == Unfold(after, fields[k].ref) && b[k].value == Unfold(heap, fields[k].ref);
    if heap[i].isMap {
      EntryDiffers(a, b, k, heap[i].mark);
    } else {
      ItemDiffers(ValuesOf(a), ValuesOf(b), k, heap[i].mark);
    }
  }

  lemma {:induction false} FieldValid(heap: Heap, i: nat, k: nat)
    requires Sound(heap) && i < |heap| && k < |heap[i].fields| && Valid(Unfold(heap, At(i)))
    ensures Within(heap, heap[i].fields[k].ref) && Valid(Unfold(heap, heap[i].fields[k].ref))
  {
    var fields, d := heap[i].fields, heap[i].depth;
    assert AllBelow(heap, fields, d) && Below(heap, fields[k].ref, d);
    var entries := UnfoldFields(heap, fields, d);
    assert entries[k].value == Unfold(heap, fields[k].ref);
    if !heap[i].isMap { assert ValuesOf(entries)[k] == entries[k].value; }
  }

  lemma {:induction false} ReachedDiffers(heap: Heap, after: Heap, v: nat, r: Ref)
    requires Sound(heap) && Sound(after) && ChangedAt(heap, after, v) && v < |heap| && MeansOther(heap, after, At(v))
    requires Within(heap, r) && Reaches(heap, r, v) && Valid(Unfold(heap, r))
    ensures MeansOther(heap, after, r)
    decreases Height(heap, r)
  {
    if r.id != v {
      var fields, d := heap[r.id].fields, heap[r.id].depth;
      var k :| 0 <= k < |fields| && Below(heap, fields[k].ref, d) && Reaches(heap, fields[k].ref, v);
      FieldValid(heap, r.id, k);
      ReachedDiffers(heap, after, v, fields[k].ref);
      ParentDiffers(heap, after, r.id, k);
    }
  }

  // ----- no key twice

  lemma {:induction false} ParentValid(heap: Heap, after: Heap, i: nat)
    requires Sound(heap) && Sound(after) && i < |heap| <= |after| && after[i] == heap[i] && Valid(Unfold(heap, At(i)))
    requires forall k :: 0 <= k < |heap[i].fields| ==>
               Within(after, heap[i].fields[k].ref) && Valid(Unfold(after, heap[i].fields[k].ref))
    ensures Valid(Unfold(after, At(i)))
  {
    var fields, d := heap[i].fields, heap[i].depth;
    assert AllBelow(heap, fields, d) && AllBelow(after, fields, d);
    SameFieldsSameKeys(heap, after, fields, d);
    var entries := UnfoldFields(after, fields, d);
    forall k | 0 <= k < |entries| ensures Valid(entries[k].value) {
      assert entries[k].value == Unfold(after, fields[k].ref);
    }
  }

  /** When the changed object stands for a tree without a key twice, so does everything that did before. */
  lemma {:induction false} StaysValid(heap: Heap, after: Heap, v: nat, r: Ref)
    requires Sound(heap) && Sound(after) && ChangedAt(heap, after, v) && v < |after| && Valid(Unfold(after, At(v)))
    requires Within(heap, r) && Valid(Unfold(heap, r))
    ensures Within(after, r) && Valid(Unfold(after, r))
    decreases Height(heap, r)
  {
    if r.At? && r.id != v {
      var fields := heap[r.id].fields;
      assert AllBelow(heap, fields, heap[r.id].depth);
      forall k | 0 <= k < |fields| ensures Within(after, fields[k].ref) && Valid(Unfold(after, fields[k].ref)) {
        assert Below(heap, fields[k].ref, heap[r.id].depth);
        FieldValid(heap, r.id, k);
        StaysValid(heap, after, v, fields[k].ref);
      }
      ParentValid(heap, after, r.id);
    }
  }

  // ----- copies reach what their originals reach

  lemma {:induction false} CopyReaches(heap: Heap, r: Ref, v: nat)
    requires Sound(heap) && Within(heap, r) && v < |heap|
    ensures Reaches(DeepCopy(heap), Shift(r, |heap|), v + |heap|) <==> Reaches(heap, r, v)
    decreases Height(heap, r)
  {
    if r.At? && r.id != v {
      var copy, i := DeepCopy(heap), r.id;
      CopySound(heap);
      assert copy[i + |heap|] == ShiftCell(heap[i], |heap|);
      assert AllBelow(heap, heap[i].fields, heap[i].depth);
      assert AllBelow(copy, copy[i + |heap|].fields, heap[i].depth);
      forall k | 0 <= k < |heap[i].fields|
        ensures Below(heap, heap[i].fields[k].ref, heap[i].depth)
        ensures Below(copy, copy[i + |heap|].fields[k].ref, heap[i].depth)
        ensures Reaches(copy, copy[i + |heap|].fields[k].ref, v + |heap|) <==> Reaches(heap, heap[i].fields[k].ref, v)
      {
        assert Below(heap, heap[i].fields[k].ref, heap[i].depth);
        CopyReaches(heap, heap[i].fields[k].ref, v);
      }
    }
  }

  /** Cells that stay, with all they refer to, reach what they reached. */
  lemma {:induction false} KeptReaches(heap: Heap, after: Heap, p: nat -> bool, r: Ref, v: nat)
    requires Sound(heap) && Sound(after) && Within(heap, r) && Kept(heap, after, p) && Holds(p, r)
    ensures Reaches(after, r, v) <==> Reaches(heap, r, v)
    decreases Height(heap, r)
  {
    if r.At? && r.id != v {
      var i := r.id;
      assert after[i] == heap[i];
      assert AllBelow(heap, heap[i].fields, heap[i].depth) && AllBelow(after, heap[i].fields, heap[i].depth);
      forall k | 0 <= k < |heap[i].fields|
        ensures Below(heap, heap[i].fields[k].ref, heap[i].depth) && Below(after, heap[i].fields[k].ref, heap[i].depth)
        ensures Reaches(after, heap[i].fields[k].ref, v) <==> Reaches(heap, heap[i].fields[k].ref, v)
      {
        assert Below(heap, heap[i].fields[k].ref, heap[i].depth) && Below(after, heap[i].fields[k].ref, heap[i].depth);
        KeptReaches(heap, after, p, heap[i].fields[k].ref, v);
      }
    }
  }
}
