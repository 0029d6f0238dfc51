/** When the mutation of a document with shared parts is the mutation of the tree it stands for. */
module SharedDocument {
  import opened Basics
  import opened ComposeValues
  import opened Mutations
  import opened SharedMutation
  import opened SharedReach

  // ----- the volumes list

  /** No field of the service but the one at `i` reaches the object `v`. */
  ghost predicate FieldsAvoid(heap: Heap, service: nat, i: int, v: nat)
    requires service < |heap|
  {
    forall k :: 0 <= k < |heap[service].fields| && k != i ==> !Reaches(heap, heap[service].fields[k].ref, v)
  }

  /** No key of the service but its volumes reaches the list they are. */
  ghost predicate VolumesPrivate(heap: Heap, service: nat)
    requires service < |heap|
  {
    HasObject(heap, service, "volumes") ==>
      FieldsAvoid(heap, service, FieldIndex(heap[service].fields, "volumes"), ObjectOf(heap, service, "volumes"))
  }

  lemma {:induction false} ShiftIndex(fields: seq<Field>, n: nat, key: string)
    ensures FieldIndex(ShiftFields(fields, n), key) == FieldIndex(fields, key)
  {
    if fields != [] {
      var i := |fields| - 1;
      assert ShiftFields(fields, n)[..i] == ShiftFields(fields[..i], n);
      ShiftIndex(fields[..i], n, key);
    }
  }

  /** The target's volumes are a copy of the service's. */
  lemma {:induction false} TargetVolumes(heap: Heap, root: nat, services: nat, at: nat, service: nat)
    requires Requested(heap, root, services, at, service)
    ensures var h := Prepared(heap, services, at, service);
            var t := TargetId(heap, service);
            && t < |h| && |h| == 4 * |heap|
            && (HasObject(h, t, "volumes") <==> HasObject(heap, service, "volumes"))
            && (HasObject(heap, service, "volumes") ==>
                  ObjectOf(h, t, "volumes") == ObjectOf(heap, service, "volumes") + 3 * |heap|)
  {
    TargetReady(heap, root, services, at, service);
    ShiftIndex(heap[service].fields, 3 * |heap|, "volumes");
    assert AllBelow(heap, heap[service].fields, heap[service].depth);
    var i := FieldIndex(heap[service].fields, "volumes");
    if i >= 0 { assert Below(heap, heap[service].fields[i].ref, heap[service].depth); }
  }

  lemma {:induction false} RegionIsKept(heap: Heap, root: nat, services: nat, at: nat, service: nat, d: nat)
    requires Requested(heap, root, services, at, service)
    ensures var h := Prepared(heap, services, at, service);
            Kept(DeepCopy(DeepCopy(heap)), h, Region(heap, h, d))
  {
    var h, copies := Prepared(heap, services, at, service), DeepCopy(DeepCopy(heap));
    var p := Region(heap, h, d);
    forall i | 0 <= i < |copies| && p(i)
      ensures h[i] == copies[i]
      ensures forall k :: 0 <= k < |copies[i].fields| && copies[i].fields[k].ref.At? ==> p(copies[i].fields[k].ref.id)
    {
      TargetRegion(heap, root, services, at, service, i - 3 * |heap|);
      RegionClosed(heap, root, services, at, service, d, i);
    }
  }

  lemma {:induction false} TwiceShifted(r: Ref, n: nat)
    ensures Shift(Shift(r, n), 2 * n) == Shift(r, 3 * n)
  {
  }

  lemma {:induction false} OnceReaches(heap: Heap, copy: Heap, r: Ref, q: Ref, v: nat, u: nat)
    requires Sound(heap) && Within(heap, r) && v < |heap|
    requires copy == DeepCopy(heap) && q == Shift(r, |heap|) && u == v + |heap|
    ensures Sound(copy) && Within(copy, q) && |copy| == 2 * |heap| && (Reaches(copy, q, u) <==> Reaches(heap, r, v))
  {
    CopySound(heap);
    CopyReaches(heap, r, v);
  }

  lemma {:induction false} TwiceReaches(heap: Heap, copies: Heap, r: Ref, s: Ref, v: nat, w: nat)
    requires Sound(heap) && Within(heap, r) && v < |heap| && copies == DeepCopy(DeepCopy(heap))
    requires s == Shift(r, 3 * |heap|) && w == v + 3 * |heap|
    ensures Sound(copies) && Within(copies, s) && (Reaches(copies, s, w) <==> Reaches(heap, r, v))
  {
    TwiceShifted(r, |heap|);
    ThroughTheCopy(heap, DeepCopy(heap), copies, r, Shift(r, |heap|), s, v, v + |heap|, w);
  }

  lemma {:induction false} ThroughTheCopy(
    heap: Heap, one: Heap, copies: Heap, r: Ref, q: Ref, s: Ref, v: nat, u: nat, w: nat)
    requires Sound(heap) && Within(heap, r) && v < |heap| && one == DeepCopy(heap) && copies == DeepCopy(one)
    requires q == Shift(r, |heap|) && u == v + |heap| && s == Shift(q, 2 * |heap|) && w == u + 2 * |heap|
    ensures Sound(copies) && Within(copies, s) && (Reaches(copies, s, w) <==> Reaches(heap, r, v))
  {
    OnceReaches(heap, one, r, q, v, u);
    OnceReaches(one, copies, q, s, u, w);
  }

  /** The copied target's fields are the service's, shifted, and stay apart from the edit of the document. */
  lemma {:induction false} TargetField(heap: Heap, root: nat, services: nat, at: nat, service: nat, k: nat)
    requires Requested(heap, root, services, at, service) && k < |heap[service].fields|
    ensures var h, t := Prepared(heap, services, at, service), TargetId(heap, service);
            && Sound(h) && t < |h| && |h[t].fields| == |heap[service].fields|
            && h[t].fields[k].ref == Shift(heap[service].fields[k].ref, 3 * |heap|)
            && Within(heap, heap[service].fields[k].ref)
            && Holds(Region(heap, h, h[t].depth), h[t].fields[k].ref)
  {
    TargetReady(heap, root, services, at, service);
    assert AllBelow(heap, heap[service].fields, heap[service].depth);
    assert Below(heap, heap[service].fields[k].ref, heap[service].depth);
  }

  lemma {:induction false} RegionReaches(
    copies: Heap, heap: Heap, root: nat, services: nat, at: nat, service: nat, h: Heap, d: nat, r: Ref, v: nat)
    requires Requested(heap, root, services, at, service) && copies == DeepCopy(DeepCopy(heap))
    requires h == Prepared(heap, services, at, service)
    requires Sound(copies) && Within(copies, r) && Holds(Region(heap, h, d), r)
    ensures Reaches(h, r, v) <==> Reaches(copies, r, v)
  {
    PreparedSound(heap, root, services, at, service);
    RegionIsKept(heap, root, services, at, service, d);
    KeptReaches(copies, h, Region(heap, h, d), r, v);
  }

  lemma {:induction false} PreparedReaches(
    heap: Heap, root: nat, services: nat, at: nat, service: nat, h: Heap, d: nat, r: Ref, v: nat, s: Ref, w: nat)
    requires Requested(heap, root, services, at, service) && Within(heap, r) && v < |heap|
    requires s == Shift(r, 3 * |heap|) && w == v + 3 * |heap|
    requires h == Prepared(heap, services, at, service) && Holds(Region(heap, h, d), s)
    ensures Reaches(h, s, w) <==> Reaches(heap, r, v)
  {
    var copies := DeepCopy(DeepCopy(heap));
    TwiceReaches(heap, copies, r, s, v, w);
    RegionReaches(copies, heap, root, services, at, service, h, d, s, w);
  }

  /** A field of the target reaches a copy when the service's field reaches the original. */
  lemma {:induction false} TargetReaches(
    heap: Heap, root: nat, services: nat, at: nat, service: nat, k: nat, v: nat, h: Heap, s: Ref, w: nat)
    requires Requested(heap, root, services, at, service) && k < |heap[service].fields| && v < |heap|
    requires h == Prepared(heap, services, at, service)
    requires s == Shift(heap[service].fields[k].ref, 3 * |heap|) && w == v + 3 * |heap|
    ensures Reaches(h, s, w) <==> Reaches(heap, heap[service].fields[k].ref, v)
  {
    TargetField(heap, root, services, at, service, k);
    PreparedReaches(heap, root, services, at, service, h, h[TargetId(heap, service)].depth,
                    heap[service].fields[k].ref, v, s, w);
  }

  /** What is needed of the target and the tree it stands for. */
  lemma {:induction false} TargetBasics(heap: Heap, root: nat, services: nat, at: nat, service: nat)
    requires Requested(heap, root, services, at, service)
    ensures var h, t := Prepared(heap, services, at, service), TargetId(heap, service);
            && Sound(h) && t < |h| && h[t].isMap && AllBelow(h, h[t].fields, h[t].depth)
            && |h[t].fields| == |heap[service].fields|
            && FieldIndex(h[t].fields, "volumes") == FieldIndex(heap[service].fields, "volumes")
            && Unfold(heap, At(service)).Mapping?
            && Unfold(heap, At(service)).entries == UnfoldFields(h, h[t].fields, h[t].depth)
  {
    TargetReady(heap, root, services, at, service);
    ShiftIndex(heap[service].fields, 3 * |heap|, "volumes");
  }

  lemma {:induction false} TargetShape(heap: Heap, root: nat, services: nat, at: nat, service: nat)
    requires Requested(heap, root, services, at, service)
    ensures var h, t := Prepared(heap, services, at, service), TargetId(heap, service);
            && Sound(h) && t < |h| && |h[t].fields| == |heap[service].fields|
            && FieldIndex(h[t].fields, "volumes") == FieldIndex(heap[service].fields, "volumes")
  {
    TargetReady(heap, root, services, at, service);
    ShiftIndex(heap[service].fields, 3 * |heap|, "volumes");
  }

  lemma {:induction false} ShapeOf(heap: Heap, root: nat, services: nat, at: nat, service: nat, h: Heap, t: nat)
    requires Requested(heap, root, services, at, service)
    requires h == Prepared(heap, services, at, service) && t == TargetId(heap, service)
    ensures Sound(h) && t < |h| && |h[t].fields| == |heap[service].fields|
    ensures FieldIndex(h[t].fields, "volumes") == FieldIndex(heap[service].fields, "volumes")
  {
    TargetShape(heap, root, services, at, service);
  }

  lemma {:induction false} PrivateTargetField(heap: Heap, root: nat, services: nat, at: nat, service: nat, k: nat, v: nat)
    requires Requested(heap, root, services, at, service) && k < |heap[service].fields| && v < |heap|
    requires !Reaches(heap, heap[service].fields[k].ref, v)
    ensures Holds(Apart(Prepared(heap, services, at, service), v + 3 * |heap|), Shift(heap[service].fields[k].ref, 3 * |heap|))
  {
    TargetReaches(heap, root, services, at, service, k, v, Prepared(heap, services, at, service),
                  Shift(heap[service].fields[k].ref, 3 * |heap|), v + 3 * |heap|);
  }

  ghost predicate OthersHold(h: Heap, t: nat, i: int, p: nat -> bool)
    requires t < |h|
  {
    forall k :: 0 <= k < |h[t].fields| && k != i ==> Holds(p, h[t].fields[k].ref)
  }

  lemma {:induction false} AvoidingFieldsApart(
    heap: Heap, root: nat, services: nat, at: nat, service: nat, i: int, v: nat, h: Heap, t: nat, p: nat -> bool)
    requires Requested(heap, root, services, at, service) && v < |heap| && FieldsAvoid(heap, service, i, v)
    requires i == FieldIndex(heap[service].fields, "volumes") && p == Apart(h, v + 3 * |heap|)
    requires h == Prepared(heap, services, at, service) && t == TargetId(heap, service)
    ensures Sound(h) && t < |h| && FieldIndex(h[t].fields, "volumes") == i && OthersHold(h, t, i, p)
  {
    ShapeOf(heap, root, services, at, service, h, t);
    forall k | 0 <= k < |h[t].fields| && k != i ensures Holds(p, h[t].fields[k].ref) {
      TargetField(heap, root, services, at, service, k);
      PrivateTargetField(heap, root, services, at, service, k, v);
    }
  }

  lemma {:induction false} ApartIsClosed(h: Heap, w: nat, p: nat -> bool)
    requires Sound(h) && p == Apart(h, w)
    ensures Closed(h, p) && !p(w)
  {
    ApartIsKept(h, h, w);
  }

  lemma {:induction false} ApartIsPrivate(
    heap: Heap, services: nat, at: nat, service: nat, h: Heap, t: nat, w: nat, p: nat -> bool)
    requires services < |heap| && at < |heap[services].fields|
    requires h == Prepared(heap, services, at, service) && t == TargetId(heap, service) && Sound(h) && t < |h|
    requires p == Apart(h, w) && OthersHold(h, t, FieldIndex(h[t].fields, "volumes"), p)
    ensures ListIsPrivate(heap, services, at, service, w, p)
  {
    ApartIsClosed(h, w, p);
  }

  lemma {:induction false} AvoidingIsPrivate(
    heap: Heap, root: nat, services: nat, at: nat, service: nat, i: int, v: nat, h: Heap, t: nat, w: nat, p: nat -> bool)
    requires Requested(heap, root, services, at, service) && v < |heap| && FieldsAvoid(heap, service, i, v)
    requires i == FieldIndex(heap[service].fields, "volumes") && t == TargetId(heap, service)
    requires h == Prepared(heap, services, at, service) && w == v + 3 * |heap| && p == Apart(h, w)
    ensures ListIsPrivate(heap, services, at, service, w, p)
  {
    AvoidingFieldsApart(heap, root, services, at, service, i, v, h, t, p);
    ApartIsPrivate(heap, services, at, service, h, t, w, p);
  }

  // ----- the edit of a list means something else

  lemma {:induction false} NoMoreItems(items: seq<Value>)
    ensures |WithoutSockets(items)| <= |items|
  {
    if items != [] { NoMoreItems(items[..|items| - 1]); }
  }

  lemma {:induction false} FewerItems(items: seq<Value>, i: nat)
    requires i < |items| && IsSocketBind(items[i])
    ensures |WithoutSockets(items)| < |items|
  {
    var n := |items| - 1;
    if i == n { NoMoreItems(items[..n]); } else { FewerItems(items[..n], i); }
  }

  lemma {:induction false} ShorterMeansOther(mark: Option<string>, a: seq<Value>, b: seq<Value>)
    requires |a| != |b|
    ensures Meaning(List(mark, a)) != Meaning(List(mark, b))
  {
    assert |MeaningItems(a)| != |MeaningItems(b)|;
  }

  lemma {:induction false} SocketsFound(entries: seq<Entry>)
    requires MutateService(entries, RemoveDockerSocket).Ok?
    ensures Has(entries, "volumes") && Get(entries, "volumes").List?
    ensures exists i :: 0 <= i < |Get(entries, "volumes").items| && IsSocketBind(Get(entries, "volumes").items[i])
  {
    SocketResult(entries);
  }

  lemma {:induction false} VolumesShrink(h: Heap, t: nat)
    requires Sound(h) && t < |h| && AllBelow(h, h[t].fields, h[t].depth) && HasObject(h, t, "volumes")
    requires MutateService(UnfoldFields(h, h[t].fields, h[t].depth), RemoveDockerSocket).Ok?
    ensures var list := Unfold(h, At(ObjectOf(h, t, "volumes")));
            list.List? && |WithoutSockets(list.items)| < |list.items|
  {
    VolumesCell(h, t);
    SocketsFound(UnfoldFields(h, h[t].fields, h[t].depth));
    var items := Unfold(h, At(ObjectOf(h, t, "volumes"))).items;
    var i :| 0 <= i < |items| && IsSocketBind(items[i]);
    FewerItems(items, i);
  }

  lemma {:induction false} EditedMeansOther(heap: Heap, root: nat, services: nat, at: nat, service: nat, v: nat)
    requires Requested(heap, root, services, at, service) && EditsList(heap, services, at, service, v)
    requires SharedMutate(heap, root, services, at, service, RemoveDockerSocket).Ok?
    ensures var h := Prepared(heap, services, at, service);
            var after := SharedMutate(heap, root, services, at, service, RemoveDockerSocket).value;
            && Sound(h) && Sound(after) && v < |h| && ChangedAt(h, after, v) && MeansOther(h, after, At(v))
  {
    TargetReady(heap, root, services, at, service);
    Edited(heap, root, services, at, service, v);
    var h := Prepared(heap, services, at, service);
    VolumesShrink(h, TargetId(heap, service));
    var items := Unfold(h, At(v)).items;
    ShorterMeansOther(h[v].mark, WithoutSockets(items), items);
  }

  // ----- exactly when the socket removal gives the service the tree it should

  ghost predicate TargetExact(heap: Heap, root: nat, services: nat, at: nat, service: nat, kind: MutationType)
    requires Requested(heap, root, services, at, service) && SharedMutate(heap, root, services, at, service, kind).Ok?
  {
    var after, t := SharedMutate(heap, root, services, at, service, kind).value, TargetId(heap, service);
    && Sound(after) && Within(after, At(t)) && Unfold(heap, At(service)).Mapping?
    && MutateService(Unfold(heap, At(service)).entries, kind).Ok?
    && Unfold(after, At(t)) == Mapping(heap[service].mark, MutateService(Unfold(heap, At(service)).entries, kind).value)
  }

  lemma {:induction false} EditsItsVolumes(heap: Heap, root: nat, services: nat, at: nat, service: nat)
    requires Requested(heap, root, services, at, service) && HasObject(heap, service, "volumes")
    ensures EditsList(heap, services, at, service, ObjectOf(heap, service, "volumes") + 3 * |heap|)
  {
    TargetVolumes(heap, root, services, at, service);
  }

  lemma {:induction false} ApartIsExact(heap: Heap, root: nat, services: nat, at: nat, service: nat, v: nat, p: nat -> bool)
    requires Requested(heap, root, services, at, service) && EditsList(heap, services, at, service, v)
    requires ListIsPrivate(heap, services, at, service, v, p)
    requires SharedMutate(heap, root, services, at, service, RemoveDockerSocket).Ok?
    ensures TargetExact(heap, root, services, at, service, RemoveDockerSocket)
  {
    SocketRemovalIsExact(heap, root, services, at, service, v, p);
  }

  lemma {:induction false} PrivateWitness(heap: Heap, root: nat, services: nat, at: nat, service: nat)
    returns (v: nat, p: nat -> bool)
    requires Requested(heap, root, services, at, service) && HasObject(heap, service, "volumes")
    requires VolumesPrivate(heap, service)
    ensures EditsList(heap, services, at, service, v) && ListIsPrivate(heap, services, at, service, v, p)
  {
    var i, w := FieldIndex(heap[service].fields, "volumes"), ObjectOf(heap, service, "volumes");
    v := w + 3 * |heap|;
    p := Apart(Prepared(heap, services, at, service), v);
    EditsItsVolumes(heap, root, services, at, service);
    AvoidingIsPrivate(heap, root, services, at, service, i, w, Prepared(heap, services, at, service),
                      TargetId(heap, service), v, p);
  }

  lemma {:induction false} PrivateListCase(heap: Heap, root: nat, services: nat, at: nat, service: nat)
    requires Requested(heap, root, services, at, service) && HasObject(heap, service, "volumes")
    requires VolumesPrivate(heap, service) && SharedMutate(heap, root, services, at, service, RemoveDockerSocket).Ok?
    ensures TargetExact(heap, root, services, at, service, RemoveDockerSocket)
  {
    var v, p := PrivateWitness(heap, root, services, at, service);
    ApartIsExact(heap, root, services, at, service, v, p);
  }

  lemma {:induction false} InlineCase(heap: Heap, root: nat, services: nat, at: nat, service: nat)
    requires Requested(heap, root, services, at, service) && !HasObject(heap, service, "volumes")
    requires SharedMutate(heap, root, services, at, service, RemoveDockerSocket).Ok?
    ensures TargetExact(heap, root, services, at, service, RemoveDockerSocket)
  {
    TargetReady(heap, root, services, at, service);
    TargetVolumes(heap, root, services, at, service);
    KeyCase(heap, root, services, at, service, RemoveDockerSocket);
  }

  lemma {:induction false} PrivateIsExact(heap: Heap, root: nat, services: nat, at: nat, service: nat)
    requires Requested(heap, root, services, at, service) && VolumesPrivate(heap, service)
    requires SharedMutate(heap, root, services, at, service, RemoveDockerSocket).Ok?
    ensures TargetExact(heap, root, services, at, service, RemoveDockerSocket)
  {
    if HasObject(heap, service, "volumes") {
      PrivateListCase(heap, root, services, at, service);
    } else {
      InlineCase(heap, root, services, at, service);
    }
  }

  lemma {:induction false} TargetFieldValid(heap: Heap, root: nat, services: nat, at: nat, service: nat, k: nat)
    requires Requested(heap, root, services, at, service) && k < |heap[service].fields| && Valid(Unfold(heap, At(service)))
    ensures var h, t := Prepared(heap, services, at, service), TargetId(heap, service);
            && Sound(h) && t < |h| && k < |h[t].fields| && Within(h, h[t].fields[k].ref)
            && Valid(Unfold(h, h[t].fields[k].ref))
  {
    TargetShape(heap, root, services, at, service);
    TargetUnfolds(heap, root, services, at, service);
    FieldValid(Prepared(heap, services, at, service), TargetId(heap, service), k);
  }

  lemma {:induction false} TargetFieldReaches(
    heap: Heap, root: nat, services: nat, at: nat, service: nat, k: nat, v: nat, h: Heap, w: nat, r: Ref)
    requires Requested(heap, root, services, at, service) && v < |heap|
    requires Valid(Unfold(heap, At(service))) && k < |heap[service].fields| && Reaches(heap, heap[service].fields[k].ref, v)
    requires h == Prepared(heap, services, at, service) && w == v + 3 * |heap| && r == Shift(heap[service].fields[k].ref, 3 * |heap|)
    ensures Sound(h) && Within(h, r) && Valid(Unfold(h, r)) && Reaches(h, r, w)
  {
    TargetFieldValid(heap, root, services, at, service, k);
    TargetField(heap, root, services, at, service, k);
    TargetReaches(heap, root, services, at, service, k, v, h, r, w);
  }

  lemma {:induction false} VolumesMeanOther(heap: Heap, root: nat, services: nat, at: nat, service: nat)
    requires Requested(heap, root, services, at, service) && HasObject(heap, service, "volumes")
    requires SharedMutate(heap, root, services, at, service, RemoveDockerSocket).Ok?
    ensures var h, v := Prepared(heap, services, at, service), ObjectOf(heap, service, "volumes") + 3 * |heap|;
            var after := SharedMutate(heap, root, services, at, service, RemoveDockerSocket).value;
            && Sound(h) && Sound(after) && v < |h| && ChangedAt(h, after, v) && MeansOther(h, after, At(v))
  {
    EditsItsVolumes(heap, root, services, at, service);
    EditedMeansOther(heap, root, services, at, service, ObjectOf(heap, service, "volumes") + 3 * |heap|);
  }

  lemma {:induction false} ReachingFieldDiffers(
    heap: Heap, root: nat, services: nat, at: nat, service: nat, k: nat, v: nat, h: Heap, after: Heap, w: nat, r: Ref)
    requires Requested(heap, root, services, at, service) && v < |heap|
    requires Valid(Unfold(heap, At(service))) && k < |heap[service].fields| && Reaches(heap, heap[service].fields[k].ref, v)
    requires h == Prepared(heap, services, at, service) && w == v + 3 * |heap| && r == Shift(heap[service].fields[k].ref, 3 * |heap|)
    requires Sound(h) && Sound(after) && w < |h| && ChangedAt(h, after, w) && MeansOther(h, after, At(w))
    ensures MeansOther(h, after, r)
  {
    TargetFieldReaches(heap, root, services, at, service, k, v, h, w, r);
    ReachedDiffers(h, after, w, r);
  }

  /** A key that reaches the list means something else afterwards. */
  lemma {:induction false} SharedFieldDiffers(heap: Heap, root: nat, services: nat, at: nat, service: nat, k: nat, v: nat)
    requires Requested(heap, root, services, at, service) && HasObject(heap, service, "volumes")
    requires SharedMutate(heap, root, services, at, service, RemoveDockerSocket).Ok?
    requires Valid(Unfold(heap, At(service))) && k < |heap[service].fields|
    requires v == ObjectOf(heap, service, "volumes") && Reaches(heap, heap[service].fields[k].ref, v)
    ensures var h := Prepared(heap, services, at, service);
            var after := SharedMutate(heap, root, services, at, service, RemoveDockerSocket).value;
            Sound(h) && Sound(after) && MeansOther(h, after, Shift(heap[service].fields[k].ref, 3 * |heap|))
  {
    VolumesMeanOther(heap, root, services, at, service);
    ReachingFieldDiffers(heap, root, services, at, service, k, v, Prepared(heap, services, at, service),
                         SharedMutate(heap, root, services, at, service, RemoveDockerSocket).value,
                         v + 3 * |heap|, Shift(heap[service].fields[k].ref, 3 * |heap|));
  }

  /** The other entries of a service are not the mutation's to change. */
  lemma {:induction false} OtherEntryStays(entries: seq<Entry>, k: nat)
    requires MutateService(entries, RemoveDockerSocket).Ok? && k < |entries| && k != IndexOf(entries, "volumes")
    ensures var r := MutateService(entries, RemoveDockerSocket).value; k < |r| && r[k] == entries[k]
  {
    SocketResult(entries);
  }

  lemma {:induction false} UnfoldsElsewhere(h: Heap, after: Heap, t: nat, k: nat, wanted: seq<Entry>, mark: Option<string>)
    requires Sound(h) && Sound(after) && t < |h| <= |after| && after[t] == h[t] && h[t].isMap
    requires k < |h[t].fields| && MeansOther(h, after, h[t].fields[k].ref)
    requires k < |wanted| && AllBelow(h, h[t].fields, h[t].depth)
    requires wanted[k] == UnfoldFields(h, h[t].fields, h[t].depth)[k]
    ensures Unfold(after, At(t)) != Mapping(mark, wanted)
  {
    var fields, d := h[t].fields, h[t].depth;
    assert AllBelow(after, after[t].fields, after[t].depth);
    assert UnfoldFields(after, fields, d)[k].value == Unfold(after, fields[k].ref);
    assert UnfoldFields(h, fields, d)[k].value == Unfold(h, fields[k].ref);
  }

  lemma {:induction false} WantedOn(h: Heap, t: nat, entries: seq<Entry>, k: nat)
    requires Sound(h) && t < |h| && AllBelow(h, h[t].fields, h[t].depth) && entries == UnfoldFields(h, h[t].fields, h[t].depth)
    requires MutateService(entries, RemoveDockerSocket).Ok? && k < |h[t].fields| && k != FieldIndex(h[t].fields, "volumes")
    ensures var wanted := MutateService(entries, RemoveDockerSocket).value; k < |wanted| && wanted[k] == entries[k]
  {
    SameIndex(h[t].fields, entries, "volumes");
    OtherEntryStays(entries, k);
  }

  lemma {:induction false} AcceptedIs(heap: Heap, root: nat, services: nat, at: nat, service: nat)
    requires Requested(heap, root, services, at, service)
    requires SharedMutate(heap, root, services, at, service, RemoveDockerSocket).Ok?
    ensures Unfold(heap, At(service)).Mapping? && MutateService(Unfold(heap, At(service)).entries, RemoveDockerSocket).Ok?
  {
    TargetBasics(heap, root, services, at, service);
  }

  /** The edit of the list leaves the target's own fields alone. */
  lemma {:induction false} TargetCellStays(heap: Heap, root: nat, services: nat, at: nat, service: nat)
    requires Requested(heap, root, services, at, service) && HasObject(heap, service, "volumes")
    requires SharedMutate(heap, root, services, at, service, RemoveDockerSocket).Ok?
    ensures var h, t := Prepared(heap, services, at, service), TargetId(heap, service);
            var after := SharedMutate(heap, root, services, at, service, RemoveDockerSocket).value;
            t < |h| <= |after| && after[t] == h[t]
  {
    TargetShape(heap, root, services, at, service);
    EditsItsVolumes(heap, root, services, at, service);
    EditedIs(heap, root, services, at, service, ObjectOf(heap, service, "volumes") + 3 * |heap|);
    TargetIsNotList(heap, root, services, at, service);
  }

  lemma {:induction false} TargetIsNotList(heap: Heap, root: nat, services: nat, at: nat, service: nat)
    requires Requested(heap, root, services, at, service) && HasObject(heap, service, "volumes")
    ensures TargetId(heap, service) != ObjectOf(heap, service, "volumes") + 3 * |heap|
  {
    assert AllBelow(heap, heap[service].fields, heap[service].depth);
    assert Below(heap, heap[service].fields[FieldIndex(heap[service].fields, "volumes")].ref, heap[service].depth);
  }

  lemma {:induction false} SharedIsInexact(heap: Heap, root: nat, services: nat, at: nat, service: nat, k: nat, v: nat)
    requires Requested(heap, root, services, at, service) && HasObject(heap, service, "volumes")
    requires SharedMutate(heap, root, services, at, service, RemoveDockerSocket).Ok?
    requires Valid(Unfold(heap, At(service))) && k < |heap[service].fields|
    requires k != FieldIndex(heap[service].fields, "volumes")
    requires v == ObjectOf(heap, service, "volumes") && Reaches(heap, heap[service].fields[k].ref, v)
    ensures !TargetExact(heap, root, services, at, service, RemoveDockerSocket)
  {
    AcceptedIs(heap, root, services, at, service);
    TargetBasics(heap, root, services, at, service);
    TargetField(heap, root, services, at, service, k);
    WantedOn(Prepared(heap, services, at, service), TargetId(heap, service), Unfold(heap, At(service)).entries, k);
    TargetCellStays(heap, root, services, at, service);
    SharedFieldDiffers(heap, root, services, at, service, k, v);
    UnfoldsElsewhere(Prepared(heap, services, at, service),
                     SharedMutate(heap, root, services, at, service, RemoveDockerSocket).value, TargetId(heap, service), k,
                     MutateService(Unfold(heap, At(service)).entries, RemoveDockerSocket).value, heap[service].mark);
  }

  /** The socket removal gives the service the mutated tree iff no other key of the service reaches the volumes list. */
  lemma {:induction false} SocketRemovalExactIff(heap: Heap, root: nat, services: nat, at: nat, service: nat)
    requires Requested(heap, root, services, at, service) && Valid(Unfold(heap, At(service)))
    requires SharedMutate(heap, root, services, at, service, RemoveDockerSocket).Ok?
    ensures TargetExact(heap, root, services, at, service, RemoveDockerSocket) <==> VolumesPrivate(heap, service)
  {
    if VolumesPrivate(heap, service) {
      PrivateIsExact(heap, root, services, at, service);
    } else {
      var i, v := FieldIndex(heap[service].fields, "volumes"), ObjectOf(heap, service, "volumes");
      var k :| 0 <= k < |heap[service].fields| && k != i && Reaches(heap, heap[service].fields[k].ref, v);
      SharedIsInexact(heap, root, services, at, service, k, v);
    }
  }
}
