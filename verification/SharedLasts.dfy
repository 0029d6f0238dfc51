/** A document whose sharing does no harm stays one: mutations can follow each other. */
module SharedLasts {
  import opened ComposeValues
  import opened Mutations
  import opened MutationLaws
  import opened SharedMutation
  import opened SharedReach
  import opened SharedDocument
  import opened SharedCandidate

  /** No field of another name reaches what a field named `volumes` refers to. */
  ghost predicate KeysPrivate(heap: Heap, fields: seq<Field>) {
    forall i, k ::
      (0 <= i < |fields| && 0 <= k < |fields| && fields[i].key == "volumes" && fields[i].ref.At? && fields[k].key != "volumes") ==>
        !Reaches(heap, fields[k].ref, fields[i].ref.id)
  }

  ghost predicate ServicePrivate(heap: Heap, r: Ref) {
    r.At? && r.id < |heap| && heap[r.id].isMap ==> KeysPrivate(heap, heap[r.id].fields)
  }

  /** The sharing that the mutations can stand. */
  ghost predicate Unshared(heap: Heap, root: nat, services: nat) {
    && root < |heap| && services < |heap| && ServicesPrivate(heap, root, services)
    && forall a :: 0 <= a < |heap[services].fields| ==> ServicePrivate(heap, heap[services].fields[a].ref)
  }

  lemma {:induction false} LastIndex(fields: seq<Field>, key: string)
    ensures var i := FieldIndex(fields, key);
            && (i >= 0 ==> fields[i].key == key)
            && (i < 0 ==> forall k :: 0 <= k < |fields| ==> fields[k].key != key)
  {
    if fields != [] && fields[|fields| - 1].key != key { LastIndex(fields[..|fields| - 1], key); }
  }

  lemma {:induction false} DistinctFields(heap: Heap, i: nat, j: nat, k: nat)
    requires Sound(heap) && i < |heap| && heap[i].isMap && Valid(Unfold(heap, At(i)))
    requires j < |heap[i].fields| && k < |heap[i].fields| && heap[i].fields[j].key == heap[i].fields[k].key
    ensures j == k
  {
    assert AllBelow(heap, heap[i].fields, heap[i].depth);
    var entries := UnfoldFields(heap, heap[i].fields, heap[i].depth);
    assert Keys(entries)[j] == Keys(entries)[k];
  }

  /** In a mapping that has no key twice it is the same as the condition on its one `volumes`. */
  lemma {:induction false} PrivateByKey(heap: Heap, service: nat)
    requires Sound(heap) && service < |heap| && heap[service].isMap && Valid(Unfold(heap, At(service)))
    requires KeysPrivate(heap, heap[service].fields)
    ensures VolumesPrivate(heap, service)
  {
    var fields := heap[service].fields;
    if HasObject(heap, service, "volumes") {
      var i := FieldIndex(fields, "volumes");
      LastIndex(fields, "volumes");
      forall k | 0 <= k < |fields| && k != i ensures !Reaches(heap, fields[k].ref, fields[i].ref.id) {
        if fields[k].key == "volumes" { DistinctFields(heap, service, i, k); }
      }
    }
  }

  // ----- fields that come from others

  /** Every field is a plain value or one of the others. */
  ghost predicate DrawnFrom(after: seq<Field>, fields: seq<Field>) {
    forall k :: 0 <= k < |after| ==> after[k].ref.Inline? || after[k] in fields
  }

  lemma {:induction false} DrawnPrivate(heap: Heap, after: seq<Field>, fields: seq<Field>)
    requires KeysPrivate(heap, fields) && DrawnFrom(after, fields)
    ensures KeysPrivate(heap, after)
  {
    forall i, k | 0 <= i < |after| && 0 <= k < |after| && after[i].key == "volumes" && after[i].ref.At? && after[k].key != "volumes"
      ensures !Reaches(heap, after[k].ref, after[i].ref.id)
    {
      if after[k].ref.At? {
        var a :| 0 <= a < |fields| && fields[a] == after[i];
        var b :| 0 <= b < |fields| && fields[b] == after[k];
        assert !Reaches(heap, fields[b].ref, fields[a].ref.id);
      }
    }
  }

  lemma {:induction false} SetDrawn(fields: seq<Field>, key: string, v: Value)
    ensures DrawnFrom(SetField(fields, key, v), fields)
  {
  }

  lemma {:induction false} DropDrawn(fields: seq<Field>, key: string)
    ensures DrawnFrom(DropField(fields, key), fields)
  {
    var after := DropField(fields, key);
    forall k | 0 <= k < |after| ensures after[k] in fields {
      assert after[k] == fields[if FieldIndex(fields, key) < 0 || k < FieldIndex(fields, key) then k else k + 1];
    }
  }

  // ----- fields whose objects are copied or kept

  /** The references reach in one heap what they reach in the other, shifted. */
  ghost predicate ReachAlike(heap: Heap, fields: seq<Field>, after: Heap, n: nat) {
    forall k, v :: 0 <= k < |fields| && 0 <= v < |heap| ==>
      (Reaches(after, Shift(fields[k].ref, n), v + n) <==> Reaches(heap, fields[k].ref, v))
  }

  lemma {:induction false} ShiftedPrivate(heap: Heap, fields: seq<Field>, after: Heap, n: nat)
    requires KeysPrivate(heap, fields) && ReachAlike(heap, fields, after, n)
    requires forall k :: 0 <= k < |fields| ==> Within(heap, fields[k].ref)
    ensures KeysPrivate(after, ShiftFields(fields, n))
  {
    var moved := ShiftFields(fields, n);
    forall i, k | 0 <= i < |moved| && 0 <= k < |moved| && moved[i].key == "volumes" && moved[i].ref.At? && moved[k].key != "volumes"
      ensures !Reaches(after, moved[k].ref, moved[i].ref.id)
    {
      assert !Reaches(heap, fields[k].ref, fields[i].ref.id);
      assert Reaches(after, Shift(fields[k].ref, n), fields[i].ref.id + n) <==> Reaches(heap, fields[k].ref, fields[i].ref.id);
    }
  }

  /** Or where nothing they refer to changed. */
  lemma {:induction false} KeptPrivate(h: Heap, after: Heap, p: nat -> bool, fields: seq<Field>)
    requires Sound(h) && Sound(after) && Kept(h, after, p) && KeysPrivate(h, fields)
    requires forall k :: 0 <= k < |fields| ==> Within(h, fields[k].ref) && Holds(p, fields[k].ref)
    ensures KeysPrivate(after, fields)
  {
    forall i, k | 0 <= i < |fields| && 0 <= k < |fields| && fields[i].key == "volumes" && fields[i].ref.At? && fields[k].key != "volumes"
      ensures !Reaches(after, fields[k].ref, fields[i].ref.id)
    {
      KeptReaches(h, after, p, fields[k].ref, fields[i].ref.id);
    }
  }

  // ----- the copied document

  /** What does not reach the services reaches, in the candidate, what it reached in the document. */
  lemma {:induction false} DocumentReaches(
    heap: Heap, root: nat, services: nat, at: nat, service: nat, after: Heap, r: Ref, q: Ref, v: nat, w: nat)
    requires Placed(heap, root, services, at, service, after) && Within(heap, r) && v < |heap|
    requires q == Shift(r, |heap|) && w == v + |heap| && !Reaches(heap, r, services)
    ensures Within(after, q) && (Reaches(after, q, w) <==> Reaches(heap, r, v))
  {
    var one, s := DeepCopy(heap), services + |heap|;
    DocumentChangedAt(heap, root, services, at, service, after);
    CopyOf(heap, one, r, q, services, s);
    CopyOf(heap, one, r, q, v, w);
    ApartIsKept(one, after, s);
    KeptReaches(one, after, Apart(one, s), q, w);
  }

  lemma {:induction false} ServicesStayPrivate(
    heap: Heap, root: nat, services: nat, at: nat, service: nat, after: Heap, c: nat, s: nat)
    requires Placed(heap, root, services, at, service, after) && c == RootId(heap, root) && s == services + |heap|
    requires ServicesPrivate(heap, root, services)
    ensures c < |after| && ServicesPrivate(after, c, s)
  {
    RootCell(heap, root, services, at, service, after, c);
    assert AllBelow(heap, heap[root].fields, heap[root].depth);
    forall k | 0 <= k < |after[c].fields| && after[c].fields[k].key != "services"
      ensures !Reaches(after, after[c].fields[k].ref, s)
    {
      var r := heap[root].fields[k].ref;
      assert Below(heap, r, heap[root].depth);
      DocumentReaches(heap, root, services, at, service, after, r, Shift(r, |heap|), services, s);
    }
  }

  /** Nothing inside a service reaches the services. */
  lemma {:induction false} BelowServices(heap: Heap, services: nat, i: nat, k: nat)
    requires Sound(heap) && services < |heap| && i < |heap| && heap[i].depth < heap[services].depth && k < |heap[i].fields|
    ensures Within(heap, heap[i].fields[k].ref) && !Reaches(heap, heap[i].fields[k].ref, services)
  {
    assert AllBelow(heap, heap[i].fields, heap[i].depth) && Below(heap, heap[i].fields[k].ref, heap[i].depth);
    if Reaches(heap, heap[i].fields[k].ref, services) { ReachesDown(heap, heap[i].fields[k].ref, services); }
  }

  lemma {:induction false} OtherFieldReaches(
    heap: Heap, root: nat, services: nat, at: nat, service: nat, after: Heap, i: nat, k: nat, v: nat)
    requires Placed(heap, root, services, at, service, after) && i < |heap| && heap[i].depth < heap[services].depth
    requires k < |heap[i].fields| && v < |heap|
    ensures var r := heap[i].fields[k].ref;
            Reaches(after, Shift(r, |heap|), v + |heap|) <==> Reaches(heap, r, v)
  {
    var r := heap[i].fields[k].ref;
    BelowServices(heap, services, i, k);
    DocumentReaches(heap, root, services, at, service, after, r, Shift(r, |heap|), v, v + |heap|);
  }

  lemma {:induction false} OtherReaches(
    heap: Heap, root: nat, services: nat, at: nat, service: nat, after: Heap, i: nat)
    requires Placed(heap, root, services, at, service, after) && i < |heap| && heap[i].depth < heap[services].depth
    ensures ReachAlike(heap, heap[i].fields, after, |heap|)
  {
    forall k, v | 0 <= k < |heap[i].fields| && 0 <= v < |heap|
      ensures Reaches(after, Shift(heap[i].fields[k].ref, |heap|), v + |heap|) <==> Reaches(heap, heap[i].fields[k].ref, v)
    {
      OtherFieldReaches(heap, root, services, at, service, after, i, k, v);
    }
  }

  lemma {:induction false} FieldsWithin(heap: Heap, i: nat)
    requires Sound(heap) && i < |heap|
    ensures forall k :: 0 <= k < |heap[i].fields| ==> Within(heap, heap[i].fields[k].ref)
  {
    assert AllBelow(heap, heap[i].fields, heap[i].depth);
    forall k | 0 <= k < |heap[i].fields| ensures Within(heap, heap[i].fields[k].ref) {
      assert Below(heap, heap[i].fields[k].ref, heap[i].depth);
    }
  }

  lemma {:induction false} OtherCell(heap: Heap, root: nat, services: nat, at: nat, service: nat, after: Heap, i: nat)
    requires Placed(heap, root, services, at, service, after) && i < |heap| && i != services
    ensures i + |heap| < |after| && after[i + |heap|] == ShiftCell(heap[i], |heap|)
  {
    DocumentChangedAt(heap, root, services, at, service, after);
    assert DeepCopy(heap)[i + |heap|] == ShiftCell(heap[i], |heap|);
  }

  /** A service of the candidate that is no target is as private as it was. */
  lemma {:induction false} OtherStaysPrivate(
    heap: Heap, root: nat, services: nat, at: nat, service: nat, after: Heap, i: nat)
    requires Placed(heap, root, services, at, service, after)
    requires i < |heap| && heap[i].depth < heap[services].depth && KeysPrivate(heap, heap[i].fields)
    ensures i + |heap| < |after| && KeysPrivate(after, after[i + |heap|].fields)
  {
    OtherCell(heap, root, services, at, service, after, i);
    OtherReaches(heap, root, services, at, service, after, i);
    FieldsWithin(heap, i);
    ShiftedPrivate(heap, heap[i].fields, after, |heap|);
  }

  // ----- the target

  lemma {:induction false} TargetReachAlike(heap: Heap, root: nat, services: nat, at: nat, service: nat, h: Heap, n: nat)
    requires Requested(heap, root, services, at, service)
    requires h == Prepared(heap, services, at, service) && n == 3 * |heap|
    ensures ReachAlike(heap, heap[service].fields, h, n)
  {
    forall k, v | 0 <= k < |heap[service].fields| && 0 <= v < |heap|
      ensures Reaches(h, Shift(heap[service].fields[k].ref, n), v + n) <==> Reaches(heap, heap[service].fields[k].ref, v)
    {
      TargetReaches(heap, root, services, at, service, k, v, h, Shift(heap[service].fields[k].ref, n), v + n);
    }
  }

  lemma {:induction false} TargetFields(heap: Heap, root: nat, services: nat, at: nat, service: nat, h: Heap, t: nat, n: nat)
    requires Requested(heap, root, services, at, service)
    requires h == Prepared(heap, services, at, service) && t == TargetId(heap, service) && n == 3 * |heap|
    ensures Sound(h) && t < |h| && h[t].fields == ShiftFields(heap[service].fields, n)
  {
    TargetReady(heap, root, services, at, service);
  }

  lemma {:induction false} TargetStartsPrivate(heap: Heap, root: nat, services: nat, at: nat, service: nat, h: Heap, t: nat)
    requires Requested(heap, root, services, at, service) && KeysPrivate(heap, heap[service].fields)
    requires h == Prepared(heap, services, at, service) && t == TargetId(heap, service)
    ensures Sound(h) && t < |h| && KeysPrivate(h, h[t].fields)
    ensures forall k :: 0 <= k < |h[t].fields| ==> Within(h, h[t].fields[k].ref)
  {
    FieldsWithin(heap, service);
    TargetReachAlike(heap, root, services, at, service, h, 3 * |heap|);
    TargetFields(heap, root, services, at, service, h, t, 3 * |heap|);
    ShiftedPrivate(heap, heap[service].fields, h, 3 * |heap|);
    FieldsWithin(h, t);
  }

  /** An edit of the target's own keys. */
  lemma {:induction false} KeyEditPrivate(h: Heap, t: nat, entries: seq<Entry>, kind: MutationType, p: nat -> bool)
    requires Sound(h) && t < |h| && !p(t) && Closed(h, p) && KeysPrivate(h, h[t].fields)
    requires forall k :: 0 <= k < |h[t].fields| ==> Within(h, h[t].fields[k].ref) && Holds(p, h[t].fields[k].ref)
    requires MutateService(entries, kind).Ok? && Sound(KeyEdit(h, t, entries, kind))
    ensures t < |KeyEdit(h, t, entries, kind)|
    ensures KeysPrivate(KeyEdit(h, t, entries, kind), KeyEdit(h, t, entries, kind)[t].fields)
  {
    var after := KeyEdit(h, t, entries, kind);
    var fields, edited := h[t].fields, after[t].fields;
    if Written(entries, kind).Some? {
      SetDrawn(fields, KeyOf(kind), Written(entries, kind).value);
    } else {
      DropDrawn(fields, KeyOf(kind));
    }
    DrawnPrivate(h, edited, fields);
    DrawnHolds(h, edited, fields, p);
    ClosedIsKept(h, after, t, p);
    KeptPrivate(h, after, p, edited);
  }

  lemma {:induction false} DrawnHolds(h: Heap, after: seq<Field>, fields: seq<Field>, p: nat -> bool)
    requires DrawnFrom(after, fields)
    requires forall k :: 0 <= k < |fields| ==> Within(h, fields[k].ref) && Holds(p, fields[k].ref)
    ensures forall k :: 0 <= k < |after| ==> Within(h, after[k].ref) && Holds(p, after[k].ref)
  {
  }

  lemma {:induction false} ClosedIsKept(h: Heap, after: Heap, t: nat, p: nat -> bool)
    requires Closed(h, p) && !p(t) && ChangedAt(h, after, t)
    ensures Kept(h, after, p)
  {
    forall i | 0 <= i < |h| && p(i)
      ensures after[i] == h[i]
      ensures forall k :: 0 <= k < |h[i].fields| && h[i].fields[k].ref.At? ==> p(h[i].fields[k].ref.id)
    {
      forall k | 0 <= k < |h[i].fields| && h[i].fields[k].ref.At? ensures p(h[i].fields[k].ref.id) {
        assert Holds(p, h[i].fields[k].ref);
      }
    }
  }

  /** An edit of the list that only the volumes reach. */
  lemma {:induction false} ListEditPrivate(h: Heap, after: Heap, fields: seq<Field>, w: nat)
    requires Sound(h) && Sound(after) && ChangedAt(h, after, w) && KeysPrivate(h, fields)
    requires forall k :: 0 <= k < |fields| ==> Within(h, fields[k].ref)
    requires forall i :: 0 <= i < |fields| && fields[i].key == "volumes" && fields[i].ref.At? ==> fields[i].ref.id == w
    ensures KeysPrivate(after, fields)
  {
    ApartIsKept(h, after, w);
    forall i, k | 0 <= i < |fields| && 0 <= k < |fields| && fields[i].key == "volumes" && fields[i].ref.At? && fields[k].key != "volumes"
      ensures !Reaches(after, fields[k].ref, fields[i].ref.id)
    {
      assert !Reaches(h, fields[k].ref, fields[i].ref.id);
      KeptReaches(h, after, Apart(h, w), fields[k].ref, w);
    }
  }

  lemma {:induction false} OneVolumes(h: Heap, t: nat, w: nat)
    requires Sound(h) && t < |h| && h[t].isMap && Valid(Unfold(h, At(t)))
    requires HasObject(h, t, "volumes") && w == ObjectOf(h, t, "volumes")
    ensures forall i :: 0 <= i < |h[t].fields| && h[t].fields[i].key == "volumes" && h[t].fields[i].ref.At? ==>
              h[t].fields[i].ref.id == w
  {
    LastIndex(h[t].fields, "volumes");
    forall i | 0 <= i < |h[t].fields| && h[t].fields[i].key == "volumes" && h[t].fields[i].ref.At?
      ensures h[t].fields[i].ref.id == w
    {
      DistinctFields(h, t, i, FieldIndex(h[t].fields, "volumes"));
    }
  }

  lemma {:induction false} KeyCasePrivate(heap: Heap, root: nat, services: nat, at: nat, service: nat, kind: MutationType)
    requires Requested(heap, root, services, at, service) && KeysPrivate(heap, heap[service].fields)
    requires SharedMutate(heap, root, services, at, service, kind).Ok?
    requires kind.RemoveDockerSocket? ==> !HasObject(heap, service, "volumes")
    ensures var after, t := SharedMutate(heap, root, services, at, service, kind).value, TargetId(heap, service);
            t < |after| && KeysPrivate(after, after[t].fields)
  {
    var h, t := Prepared(heap, services, at, service), TargetId(heap, service);
    TargetReady(heap, root, services, at, service);
    TargetVolumes(heap, root, services, at, service);
    TargetStartsPrivate(heap, root, services, at, service, h, t);
    KindAccepted(heap, root, services, at, service, kind);
    KeyCase(heap, root, services, at, service, kind);
    KeyEditPrivate(h, t, Unfold(heap, At(service)).entries, kind, Region(heap, h, h[t].depth));
  }

  lemma {:induction false} ListCasePrivate(heap: Heap, root: nat, services: nat, at: nat, service: nat)
    requires Requested(heap, root, services, at, service) && KeysPrivate(heap, heap[service].fields)
    requires SharedMutate(heap, root, services, at, service, RemoveDockerSocket).Ok? && Valid(Unfold(heap, At(service)))
    requires HasObject(heap, service, "volumes")
    ensures var after, t := SharedMutate(heap, root, services, at, service, RemoveDockerSocket).value, TargetId(heap, service);
            t < |after| && KeysPrivate(after, after[t].fields)
  {
    var h, t := Prepared(heap, services, at, service), TargetId(heap, service);
    TargetVolumes(heap, root, services, at, service);
    TargetUnfolds(heap, root, services, at, service);
    TargetStartsPrivate(heap, root, services, at, service, h, t);
    TargetBasics(heap, root, services, at, service);
    OneVolumes(h, t, ObjectOf(h, t, "volumes"));
    VolumesMeanOther(heap, root, services, at, service);
    TargetCellStays(heap, root, services, at, service);
    ListEditPrivate(h, SharedMutate(heap, root, services, at, service, RemoveDockerSocket).value, h[t].fields,
                    ObjectOf(h, t, "volumes"));
  }

  lemma {:induction false} TargetStaysPrivate(heap: Heap, root: nat, services: nat, at: nat, service: nat, kind: MutationType)
    requires Requested(heap, root, services, at, service) && KeysPrivate(heap, heap[service].fields)
    requires SharedMutate(heap, root, services, at, service, kind).Ok? && Valid(Unfold(heap, At(service)))
    ensures var after, t := SharedMutate(heap, root, services, at, service, kind).value, TargetId(heap, service);
            t < |after| && KeysPrivate(after, after[t].fields)
  {
    if kind.RemoveDockerSocket? && HasObject(heap, service, "volumes") {
      ListCasePrivate(heap, root, services, at, service);
    } else {
      KeyCasePrivate(heap, root, services, at, service, kind);
    }
  }

  lemma {:induction false} ServiceBelow(heap: Heap, services: nat, a: nat)
    requires Sound(heap) && services < |heap| && a < |heap[services].fields| && heap[services].fields[a].ref.At?
    ensures heap[services].fields[a].ref.id < |heap| && heap[heap[services].fields[a].ref.id].depth < heap[services].depth
  {
    assert AllBelow(heap, heap[services].fields, heap[services].depth);
    assert Below(heap, heap[services].fields[a].ref, heap[services].depth);
  }

  /** One service of the candidate. */
  lemma {:induction false} OtherServiceStays(
    heap: Heap, root: nat, services: nat, at: nat, service: nat, after: Heap, s: nat, a: nat)
    requires Placed(heap, root, services, at, service, after) && s == services + |heap|
    requires a < |heap[services].fields| && a != at && ServicePrivate(heap, heap[services].fields[a].ref)
    ensures s < |after| && a < |after[s].fields| && ServicePrivate(after, after[s].fields[a].ref)
  {
    ServiceField(heap, root, services, at, service, after, s, a);
    if heap[services].fields[a].ref.At? {
      ServiceBelow(heap, services, a);
      OtherObjectStays(heap, root, services, at, service, after, heap[services].fields[a].ref.id);
    }
  }

  lemma {:induction false} ServiceField(
    heap: Heap, root: nat, services: nat, at: nat, service: nat, after: Heap, s: nat, a: nat)
    requires Placed(heap, root, services, at, service, after) && s == services + |heap|
    requires a < |heap[services].fields| && a != at
    ensures s < |after| && a < |after[s].fields| && after[s].fields[a].ref == Shift(heap[services].fields[a].ref, |heap|)
  {
    OtherServicesAreKept(heap, root, services, at, service, after, a);
  }

  lemma {:induction false} OtherObjectStays(
    heap: Heap, root: nat, services: nat, at: nat, service: nat, after: Heap, i: nat)
    requires Placed(heap, root, services, at, service, after)
    requires i < |heap| && heap[i].depth < heap[services].depth && ServicePrivate(heap, At(i))
    ensures ServicePrivate(after, At(i + |heap|))
  {
    OtherCell(heap, root, services, at, service, after, i);
    if heap[i].isMap { OtherStaysPrivate(heap, root, services, at, service, after, i); }
  }

  /** On a document whose sharing does no harm every mutation gives what the tree's mutation gives, in a document whose
      sharing does no harm either. */
  lemma {:induction false} UnsharedLasts(heap: Heap, root: nat, services: nat, at: nat, service: nat, m: Mutation)
    requires Asked(heap, root, services, at, service, m) && Unshared(heap, root, services)
    requires SharedMutate(heap, root, services, at, service, m.kind).Ok?
    ensures CandidateExact(heap, root, services, at, service, m)
    ensures Unshared(SharedMutate(heap, root, services, at, service, m.kind).value, RootId(heap, root), services + |heap|)
  {
    var after := SharedMutate(heap, root, services, at, service, m.kind).value;
    var c, s := RootId(heap, root), services + |heap|;
    var j :| 0 <= j < |heap[root].fields| && heap[root].fields[j] == Field("services", At(services));
    ServiceIsValid(heap, root, services, at, service, j);
    assert ServicePrivate(heap, heap[services].fields[at].ref);
    PrivateByKey(heap, service);
    DocumentIsMutatedIff(heap, root, services, at, service, m);
    EditsCopiesOnly(heap, root, services, at, service, m.kind);
    CandidateUnshared(heap, root, services, at, service, m.kind);
  }

  lemma {:induction false} CandidateUnshared(heap: Heap, root: nat, services: nat, at: nat, service: nat, kind: MutationType)
    requires Requested(heap, root, services, at, service) && Unshared(heap, root, services) && Valid(Unfold(heap, At(service)))
    requires SharedMutate(heap, root, services, at, service, kind).Ok?
    requires Placed(heap, root, services, at, service, SharedMutate(heap, root, services, at, service, kind).value)
    ensures Unshared(SharedMutate(heap, root, services, at, service, kind).value, RootId(heap, root), services + |heap|)
  {
    var after := SharedMutate(heap, root, services, at, service, kind).value;
    var c, s := RootId(heap, root), services + |heap|;
    assert ServicePrivate(heap, heap[services].fields[at].ref);
    ServicesStayPrivate(heap, root, services, at, service, after, c, s);
    ServicesCell(heap, root, services, at, service, after, s);
    TargetStaysPrivate(heap, root, services, at, service, kind);
    forall a | 0 <= a < |after[s].fields| ensures ServicePrivate(after, after[s].fields[a].ref) {
      if a != at { OtherServiceStays(heap, root, services, at, service, after, s, a); }
    }
  }
}
