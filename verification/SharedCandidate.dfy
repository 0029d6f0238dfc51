/** The candidate document that a mutation leaves when parts of the document are shared. */
module SharedCandidate {
  import opened Basics
  import opened ComposeValues
  import opened Mutations
  import opened MutationLaws
  import opened MutationMeaning
  import opened SharedMutation
  import opened SharedReach
  import opened SharedDocument

  /** The copied document's root. */
  function RootId(heap: Heap, root: nat): nat {
    root + |heap|
  }

  /** `after` is what some edit of the copied target left. */
  ghost predicate Placed(heap: Heap, root: nat, services: nat, at: nat, service: nat, after: Heap) {
    && Requested(heap, root, services, at, service) && Sound(after)
    && EditedFrom(Prepared(heap, services, at, service), after, |heap|)
  }

  // ----- the copied document around the services

  lemma {:induction false} DocumentChangedAt(heap: Heap, root: nat, services: nat, at: nat, service: nat, after: Heap)
    requires Placed(heap, root, services, at, service, after)
    ensures Sound(DeepCopy(heap)) && |DeepCopy(heap)| == 2 * |heap|
    ensures ChangedAt(DeepCopy(heap), after, services + |heap|)
  {
    var one, s := DeepCopy(heap), services + |heap|;
    CopySound(heap);
    PreparedSound(heap, root, services, at, service);
    forall i | 0 <= i < |one| && i != s ensures after[i] == one[i] {
      assert DeepCopy(one)[i] == one[i];
    }
  }

  lemma {:induction false} CopyOf(heap: Heap, one: Heap, r: Ref, q: Ref, v: nat, s: nat)
    requires Sound(heap) && Within(heap, r) && v < |heap| && one == DeepCopy(heap)
    requires q == Shift(r, |heap|) && s == v + |heap|
    ensures Sound(one) && Within(one, q) && Unfold(one, q) == Unfold(heap, r)
    ensures Reaches(one, q, s) <==> Reaches(heap, r, v)
  {
    CopyUnfolds(heap, r);
    CopyReaches(heap, r, v);
  }

  /** A reference of the copied document that does not reach the services is as it was. */
  lemma {:induction false} UnreachedPart(
    heap: Heap, root: nat, services: nat, at: nat, service: nat, after: Heap, r: Ref, q: Ref)
    requires Placed(heap, root, services, at, service, after) && Within(heap, r) && q == Shift(r, |heap|)
    requires !Reaches(heap, r, services)
    ensures Within(after, q) && Unfold(after, q) == Unfold(heap, r)
  {
    var one, s := DeepCopy(heap), services + |heap|;
    DocumentChangedAt(heap, root, services, at, service, after);
    CopyOf(heap, one, r, q, services, s);
    UnreachedUnfolds(one, after, s, q);
  }

  /** One that does is not. */
  lemma {:induction false} ReachedPart(
    heap: Heap, root: nat, services: nat, at: nat, service: nat, after: Heap, r: Ref, q: Ref, s: nat)
    requires Placed(heap, root, services, at, service, after) && Within(heap, r)
    requires q == Shift(r, |heap|) && s == services + |heap| && Reaches(heap, r, services)
    requires Valid(Unfold(heap, r)) && s < |after| && Meaning(Unfold(after, At(s))) != Meaning(Unfold(heap, At(services)))
    ensures Within(after, q) && Meaning(Unfold(after, q)) != Meaning(Unfold(heap, r))
  {
    DocumentChangedAt(heap, root, services, at, service, after);
    ReachedCopyDiffers(heap, DeepCopy(heap), after, r, q, services, s);
  }

  lemma {:induction false} ReachedCopyDiffers(heap: Heap, one: Heap, after: Heap, r: Ref, q: Ref, v: nat, s: nat)
    requires Sound(heap) && v < |heap| && one == DeepCopy(heap) && Sound(one) && Sound(after) && ChangedAt(one, after, s)
    requires Within(heap, r) && Valid(Unfold(heap, r)) && Reaches(heap, r, v)
    requires q == Shift(r, |heap|) && s == v + |heap| && s < |after|
    requires Meaning(Unfold(after, At(s))) != Meaning(Unfold(heap, At(v)))
    ensures Within(after, q) && Meaning(Unfold(after, q)) != Meaning(Unfold(heap, r))
  {
    CopyOf(heap, one, r, q, v, s);
    CopyOf(heap, one, At(v), At(s), v, s);
    ReachedDiffers(one, after, s, q);
  }

  // ----- the services

  lemma {:induction false} ServicesCell(heap: Heap, root: nat, services: nat, at: nat, service: nat, after: Heap, s: nat)
    requires Placed(heap, root, services, at, service, after) && s == services + |heap|
    ensures s < |after| && after[s].isMap && after[s].mark == heap[services].mark && after[s].depth == heap[services].depth
    ensures |after[s].fields| == |heap[services].fields|
    ensures after[s].fields[at] == Field(heap[services].fields[at].key, At(TargetId(heap, service)))
  {
    PreparedSound(heap, root, services, at, service);
    CopiedCells(heap, services);
  }

  lemma {:induction false} OtherService(
    heap: Heap, root: nat, services: nat, at: nat, service: nat, after: Heap, s: nat, k: nat)
    requires Placed(heap, root, services, at, service, after) && s == services + |heap|
    requires k < |heap[services].fields| && k != at
    ensures s < |after| && k < |after[s].fields| && after[s].fields[k].key == heap[services].fields[k].key
    ensures Within(after, after[s].fields[k].ref) && Within(heap, heap[services].fields[k].ref)
    ensures Unfold(after, after[s].fields[k].ref) == Unfold(heap, heap[services].fields[k].ref)
  {
    OtherServicesAreKept(heap, root, services, at, service, after, k);
  }

  /** The candidate's services: the target where the service was, the others as they were. */
  lemma {:induction false} ServicesUnfold(
    heap: Heap, root: nat, services: nat, at: nat, service: nat, after: Heap, s: nat, t: nat)
    requires Placed(heap, root, services, at, service, after) && s == services + |heap| && t == TargetId(heap, service)
    ensures s < |after| && t < |after|
    ensures var was := Unfold(heap, At(services));
            was.Mapping? && at < |was.entries| && was.entries[at].key == heap[services].fields[at].key
            && Unfold(after, At(s)) == Mapping(was.mark, was.entries[at := Entry(was.entries[at].key, Unfold(after, At(t)))])
  {
    ServicesCell(heap, root, services, at, service, after, s);
    var fields, d := after[s].fields, after[s].depth;
    assert AllBelow(after, fields, d) && AllBelow(heap, heap[services].fields, d);
    assert Below(after, fields[at].ref, d);
    var now, was := UnfoldFields(after, fields, d), UnfoldFields(heap, heap[services].fields, d);
    var want := was[at := Entry(was[at].key, Unfold(after, At(t)))];
    forall k | 0 <= k < |now| ensures now[k] == want[k] {
      if k != at { OtherService(heap, root, services, at, service, after, s, k); }
    }
    assert now == want;
  }

  // ----- the target means something else than the service

  lemma {:induction false} MutatedMeansOther(mark: Option<string>, entries: seq<Entry>, kind: MutationType)
    requires ValidEntries(entries) && MutateService(entries, kind).Ok?
    ensures Meaning(Mapping(mark, MutateService(entries, kind).value)) != Meaning(Mapping(mark, entries))
  {
    var mutated := MutateService(entries, kind).value;
    MutationSatisfies(entries, kind);
    if MeaningFields(mutated) == MeaningFields(entries) {
      MutateServiceFrame(entries, kind);
      MutateServiceMeaning(entries, mutated, kind);
    }
  }

  lemma {:induction false} ExactMeansOther(heap: Heap, root: nat, services: nat, at: nat, service: nat, kind: MutationType)
    requires Requested(heap, root, services, at, service) && SharedMutate(heap, root, services, at, service, kind).Ok?
    requires Valid(Unfold(heap, At(service))) && TargetExact(heap, root, services, at, service, kind)
    ensures var after := SharedMutate(heap, root, services, at, service, kind).value;
            Meaning(Unfold(after, At(TargetId(heap, service)))) != Meaning(Unfold(heap, At(service)))
  {
    MutatedMeansOther(heap[service].mark, Unfold(heap, At(service)).entries, kind);
  }

  lemma {:induction false} FieldIsReached(
    heap: Heap, root: nat, services: nat, at: nat, service: nat, h: Heap, t: nat, i: nat, v: nat, w: nat)
    requires Requested(heap, root, services, at, service) && i < |heap[service].fields| && heap[service].fields[i].ref == At(v)
    requires h == Prepared(heap, services, at, service) && t == TargetId(heap, service) && w == v + 3 * |heap|
    ensures Sound(h) && t < |h| && Reaches(h, At(t), w)
  {
    TargetField(heap, root, services, at, service, i);
    assert h[t].fields[i].ref == At(w);
    FieldOfReaching(h, t, w, i);
  }

  lemma {:induction false} ListMeansOther(
    heap: Heap, root: nat, services: nat, at: nat, service: nat, h: Heap, after: Heap, t: nat, w: nat)
    requires Requested(heap, root, services, at, service) && HasObject(heap, service, "volumes")
    requires Valid(Unfold(heap, At(service)))
    requires h == Prepared(heap, services, at, service) && t == TargetId(heap, service)
    requires w == ObjectOf(heap, service, "volumes") + 3 * |heap|
    requires Sound(h) && Sound(after) && w < |h| && ChangedAt(h, after, w) && MeansOther(h, after, At(w))
    ensures t < |after| && Meaning(Unfold(after, At(t))) != Meaning(Unfold(heap, At(service)))
  {
    FieldIsReached(heap, root, services, at, service, h, t, FieldIndex(heap[service].fields, "volumes"),
                   ObjectOf(heap, service, "volumes"), w);
    TargetUnfolds(heap, root, services, at, service);
    ReachedDiffers(h, after, w, At(t));
  }

  lemma {:induction false} TargetDiffers(heap: Heap, root: nat, services: nat, at: nat, service: nat, kind: MutationType)
    requires Requested(heap, root, services, at, service) && SharedMutate(heap, root, services, at, service, kind).Ok?
    requires Valid(Unfold(heap, At(service)))
    ensures var after := SharedMutate(heap, root, services, at, service, kind).value;
            && Placed(heap, root, services, at, service, after) && TargetId(heap, service) < |after|
            && Meaning(Unfold(after, At(TargetId(heap, service)))) != Meaning(Unfold(heap, At(service)))
  {
    EditsCopiesOnly(heap, root, services, at, service, kind);
    if !kind.RemoveDockerSocket? {
      KeyMutationIsExact(heap, root, services, at, service, kind);
      ExactMeansOther(heap, root, services, at, service, kind);
    } else if HasObject(heap, service, "volumes") {
      VolumesMeanOther(heap, root, services, at, service);
      ListMeansOther(heap, root, services, at, service, Prepared(heap, services, at, service),
                     SharedMutate(heap, root, services, at, service, kind).value, TargetId(heap, service),
                     ObjectOf(heap, service, "volumes") + 3 * |heap|);
    } else {
      InlineCase(heap, root, services, at, service);
      ExactMeansOther(heap, root, services, at, service, kind);
    }
  }

  lemma {:induction false} ServicesDiffer(was: Value, at: nat, now: Value, target: Value)
    requires was.Mapping? && Valid(was) && at < |was.entries| && Meaning(target) != Meaning(was.entries[at].value)
    requires now == Mapping(was.mark, was.entries[at := Entry(was.entries[at].key, target)])
    ensures Meaning(now) != Meaning(was)
  {
    assert Keys(now.entries) == Keys(was.entries);
    EntryDiffers(now.entries, was.entries, at, was.mark);
  }

  // ----- the candidate as a whole

  /** No top-level key but `services` reaches the services. */
  ghost predicate ServicesPrivate(heap: Heap, root: nat, services: nat)
    requires root < |heap|
  {
    forall k :: 0 <= k < |heap[root].fields| && heap[root].fields[k].key != "services" ==>
      !Reaches(heap, heap[root].fields[k].ref, services)
  }

  lemma {:induction false} RootCell(heap: Heap, root: nat, services: nat, at: nat, service: nat, after: Heap, c: nat)
    requires Placed(heap, root, services, at, service, after) && c == RootId(heap, root)
    ensures root != services && c < |after| && after[c] == ShiftCell(heap[root], |heap|)
  {
    DocumentChangedAt(heap, root, services, at, service, after);
    assert AllBelow(heap, heap[root].fields, heap[root].depth);
    var k :| 0 <= k < |heap[root].fields| && heap[root].fields[k] == Field("services", At(services));
    assert Below(heap, heap[root].fields[k].ref, heap[root].depth);
    assert DeepCopy(heap)[c] == ShiftCell(heap[root], |heap|);
  }

  /** One top-level key of the candidate. */
  lemma {:induction false} RootField(heap: Heap, root: nat, services: nat, at: nat, service: nat, after: Heap, c: nat, k: nat)
    requires Placed(heap, root, services, at, service, after) && c == RootId(heap, root) && k < |heap[root].fields|
    ensures c < |after| && after[c].isMap && after[c].mark == heap[root].mark
    ensures Unfold(after, At(c)).Mapping? && Unfold(after, At(c)).mark == heap[root].mark
    ensures var r, q := heap[root].fields[k].ref, Shift(heap[root].fields[k].ref, |heap|);
            var was, now := Unfold(heap, At(root)), Unfold(after, At(c));
            && Within(heap, r) && Within(after, q) && was.Mapping?
            && |now.entries| == |was.entries| == |heap[root].fields|
            && now.entries[k] == Entry(heap[root].fields[k].key, Unfold(after, q))
            && was.entries[k] == Entry(heap[root].fields[k].key, Unfold(heap, r))
  {
    RootCell(heap, root, services, at, service, after, c);
    assert AllBelow(heap, heap[root].fields, heap[root].depth) && AllBelow(after, after[c].fields, after[c].depth);
    assert Below(heap, heap[root].fields[k].ref, heap[root].depth);
    assert Below(after, after[c].fields[k].ref, after[c].depth);
  }

  /** What the tree's mutation wants, given where things stand. */
  lemma {:induction false} AppliedTree(base: Value, j: nat, at: nat, m: Mutation)
    requires Valid(base) && base.Mapping? && j < |base.entries| && base.entries[j].key == "services"
    requires base.entries[j].value.Mapping? && at < |base.entries[j].value.entries|
    requires base.entries[j].value.entries[at].key == m.service && base.entries[j].value.entries[at].value.Mapping?
    requires m.id != "" && m.service != "" && m.paramsEmpty
    ensures var was := base.entries[j].value;
            var service := was.entries[at].value;
            match MutateService(service.entries, m.kind)
            case Err(e) => ApplyMutation(base, m) == Err(e)
            case Ok(mutated) =>
              ApplyMutation(base, m) ==
                Ok(Mapping(base.mark, base.entries[j := Entry("services",
                   Mapping(was.mark, was.entries[at := Entry(m.service, Mapping(service.mark, mutated))]))]))
  {
    GetAt(base.entries, j);
    DistinctIndex(base.entries, j);
    var was := base.entries[j].value;
    assert Valid(was);
    GetAt(was.entries, at);
    DistinctIndex(was.entries, at);
  }

  lemma {:induction false} DistinctIndex(entries: seq<Entry>, i: nat)
    requires Distinct(Keys(entries)) && i < |entries|
    ensures IndexOf(entries, entries[i].key) == i
  {
    var j := IndexOf(entries, entries[i].key);
    GetAt(entries, i);
    assert Keys(entries)[i] == Keys(entries)[j];
  }

  /** What is known of the candidate's services, whether or not they are what was wanted. */
  ghost predicate ServicesMeanOther(heap: Heap, services: nat, after: Heap, s: nat)
    requires Sound(heap) && Sound(after)
  {
    services < |heap| && s < |after| && Meaning(Unfold(after, At(s))) != Meaning(Unfold(heap, At(services)))
  }

  lemma {:induction false} EntryMeans(
    heap: Heap, root: nat, services: nat, at: nat, service: nat, after: Heap, c: nat, s: nat, k: nat)
    requires Placed(heap, root, services, at, service, after) && c == RootId(heap, root) && s == services + |heap|
    requires ServicesMeanOther(heap, services, after, s) && Valid(Unfold(heap, At(root))) && k < |heap[root].fields|
    ensures c < |after| && Unfold(after, At(c)).Mapping? && Unfold(heap, At(root)).Mapping?
    ensures var was, now := Unfold(heap, At(root)).entries, Unfold(after, At(c)).entries;
            && k < |now| && k < |was| && now[k].key == was[k].key == heap[root].fields[k].key
            && (!Reaches(heap, heap[root].fields[k].ref, services) ==> now[k] == was[k])
            && (Reaches(heap, heap[root].fields[k].ref, services) ==> Meaning(now[k].value) != Meaning(was[k].value))
  {
    var r, q := heap[root].fields[k].ref, Shift(heap[root].fields[k].ref, |heap|);
    RootField(heap, root, services, at, service, after, c, k);
    FieldValid(heap, root, k);
    if Reaches(heap, r, services) {
      ReachedPart(heap, root, services, at, service, after, r, q, s);
    } else {
      UnreachedPart(heap, root, services, at, service, after, r, q);
    }
  }

  lemma {:induction false} EntryStaysIff(
    heap: Heap, root: nat, services: nat, at: nat, service: nat, after: Heap, c: nat, s: nat, k: nat,
    was: seq<Entry>, now: seq<Entry>)
    requires Placed(heap, root, services, at, service, after) && c == RootId(heap, root) && s == services + |heap|
    requires ServicesMeanOther(heap, services, after, s) && Valid(Unfold(heap, At(root))) && k < |heap[root].fields|
    requires c < |after| && Unfold(after, At(c)).Mapping? && Unfold(heap, At(root)).Mapping?
    requires was == Unfold(heap, At(root)).entries && now == Unfold(after, At(c)).entries
    ensures k < |now| && k < |was| && (now[k] == was[k] <==> !Reaches(heap, heap[root].fields[k].ref, services))
  {
    EntryMeans(heap, root, services, at, service, after, c, s, k);
  }

  /** The candidate's own `services`. */
  lemma {:induction false} ServicesEntry(
    heap: Heap, root: nat, services: nat, at: nat, service: nat, after: Heap, c: nat, s: nat, t: nat, j: nat)
    requires Placed(heap, root, services, at, service, after) && c == RootId(heap, root)
    requires s == services + |heap| && t == TargetId(heap, service)
    requires j < |heap[root].fields| && heap[root].fields[j] == Field("services", At(services))
    ensures c < |after| && t < |after| && Unfold(after, At(c)).Mapping? && Unfold(heap, At(root)).Mapping?
    ensures Unfold(after, At(c)).mark == Unfold(heap, At(root)).mark
    ensures var was, now := Unfold(heap, At(root)).entries, Unfold(after, At(c)).entries;
            && |now| == |was| && j < |was| && was[j] == Entry("services", Unfold(heap, At(services)))
            && was[j].value.Mapping? && at < |was[j].value.entries|
            && was[j].value.entries[at] == Entry(heap[services].fields[at].key, Unfold(heap, At(service)))
            && now[j] == Entry("services", Mapping(was[j].value.mark,
                 was[j].value.entries[at := Entry(heap[services].fields[at].key, Unfold(after, At(t)))]))
  {
    RootField(heap, root, services, at, service, after, c, j);
    ServicesUnfold(heap, root, services, at, service, after, s, t);
    assert AllBelow(heap, heap[services].fields, heap[services].depth);
    assert UnfoldFields(heap, heap[services].fields, heap[services].depth)[at].value == Unfold(heap, heap[services].fields[at].ref);
  }

  // ----- the theorem

  /** A mutation of the service at `at`, as a caller may ask for it. */
  ghost predicate Asked(heap: Heap, root: nat, services: nat, at: nat, service: nat, m: Mutation) {
    && Requested(heap, root, services, at, service) && Valid(Unfold(heap, At(root)))
    && m.service == heap[services].fields[at].key && m.id != "" && m.service != "" && m.paramsEmpty
  }

  /** The top-level keys around the services. */
  ghost predicate OthersStay(was: seq<Entry>, now: seq<Entry>, j: nat) {
    |was| == |now| && forall k :: 0 <= k < |was| && k != j ==> now[k] == was[k]
  }

  ghost function WithTarget(was: seq<Entry>, j: nat, at: nat, name: string, target: Value): seq<Entry>
    requires j < |was| && was[j].value.Mapping? && at < |was[j].value.entries|
  {
    was[j := Entry("services", Mapping(was[j].value.mark, was[j].value.entries[at := Entry(name, target)]))]
  }

  lemma {:induction false} TreesEqualIff(
    was: seq<Entry>, now: seq<Entry>, j: nat, at: nat, name: string, target: Value, wanted: Value)
    requires |now| == |was| && j < |was| && was[j].value.Mapping? && at < |was[j].value.entries|
    requires now[j] == WithTarget(was, j, at, name, target)[j]
    ensures now == WithTarget(was, j, at, name, wanted) <==> target == wanted && OthersStay(was, now, j)
  {
    var want := WithTarget(was, j, at, name, wanted);
    if now == want {
      assert now[j].value.entries[at].value == want[j].value.entries[at].value;
      assert forall k :: 0 <= k < |was| && k != j ==> want[k] == was[k];
    }
  }

  lemma {:induction false} OneServicesKey(heap: Heap, root: nat, j: nat, k: nat)
    requires Sound(heap) && root < |heap| && heap[root].isMap && Valid(Unfold(heap, At(root)))
    requires j < |heap[root].fields| && k < |heap[root].fields| && heap[root].fields[j].key == heap[root].fields[k].key
    ensures j == k
  {
    assert AllBelow(heap, heap[root].fields, heap[root].depth);
    var entries := UnfoldFields(heap, heap[root].fields, heap[root].depth);
    assert Keys(entries)[j] == Keys(entries)[k];
  }

  /** The other top-level keys stay exactly when none of them reaches the services. */
  lemma {:induction false} OthersStayIff(
    heap: Heap, root: nat, services: nat, at: nat, service: nat, after: Heap, c: nat, s: nat, j: nat)
    requires Placed(heap, root, services, at, service, after) && c == RootId(heap, root) && s == services + |heap|
    requires ServicesMeanOther(heap, services, after, s) && Valid(Unfold(heap, At(root)))
    requires j < |heap[root].fields| && heap[root].fields[j].key == "services"
    ensures c < |after| && Unfold(after, At(c)).Mapping? && Unfold(heap, At(root)).Mapping?
    ensures OthersStay(Unfold(heap, At(root)).entries, Unfold(after, At(c)).entries, j) <==> ServicesPrivate(heap, root, services)
  {
    RootField(heap, root, services, at, service, after, c, j);
    var was, now := Unfold(heap, At(root)).entries, Unfold(after, At(c)).entries;
    forall k | 0 <= k < |was| ensures StaysIff(heap, heap[root].fields, services, was, now, k, j) {
      EntryStaysIff(heap, root, services, at, service, after, c, s, k, was, now);
      if heap[root].fields[k].key == "services" { OneServicesKey(heap, root, j, k); }
    }
    AllStayIff(heap, root, services, was, now, j);
  }

  ghost predicate StaysIff(heap: Heap, fields: seq<Field>, services: nat, was: seq<Entry>, now: seq<Entry>, k: nat, j: nat)
    requires |fields| == |was| == |now| && k < |was|
  {
    (k != j ==> fields[k].key != "services") && (now[k] == was[k] <==> !Reaches(heap, fields[k].ref, services))
  }

  lemma {:induction false} AllStayIff(heap: Heap, root: nat, services: nat, was: seq<Entry>, now: seq<Entry>, j: nat)
    requires root < |heap| && |heap[root].fields| == |was| == |now|
    requires j < |was| && heap[root].fields[j].key == "services"
    requires forall k :: 0 <= k < |was| ==> StaysIff(heap, heap[root].fields, services, was, now, k, j)
    ensures OthersStay(was, now, j) <==> ServicesPrivate(heap, root, services)
  {
    forall k | 0 <= k < |was| && k != j
      ensures heap[root].fields[k].key != "services"
      ensures now[k] == was[k] <==> !Reaches(heap, heap[root].fields[k].ref, services)
    {
      assert StaysIff(heap, heap[root].fields, services, was, now, k, j);
    }
  }

  lemma {:induction false} ServiceIsValid(heap: Heap, root: nat, services: nat, at: nat, service: nat, j: nat)
    requires Requested(heap, root, services, at, service) && Valid(Unfold(heap, At(root)))
    requires j < |heap[root].fields| && heap[root].fields[j] == Field("services", At(services))
    ensures Valid(Unfold(heap, At(services))) && Valid(Unfold(heap, At(service)))
  {
    FieldValid(heap, root, j);
    FieldValid(heap, services, at);
  }

  /** Whatever is asked, the candidate's services mean something else. */
  lemma {:induction false} ServicesAlwaysDiffer(heap: Heap, root: nat, services: nat, at: nat, service: nat, m: Mutation, j: nat)
    requires Asked(heap, root, services, at, service, m) && SharedMutate(heap, root, services, at, service, m.kind).Ok?
    requires j < |heap[root].fields| && heap[root].fields[j] == Field("services", At(services))
    ensures var after := SharedMutate(heap, root, services, at, service, m.kind).value;
            Placed(heap, root, services, at, service, after) && ServicesMeanOther(heap, services, after, services + |heap|)
  {
    var after := SharedMutate(heap, root, services, at, service, m.kind).value;
    var s, t := services + |heap|, TargetId(heap, service);
    ServiceIsValid(heap, root, services, at, service, j);
    TargetDiffers(heap, root, services, at, service, m.kind);
    ServicesUnfold(heap, root, services, at, service, after, s, t);
    var was := Unfold(heap, At(services));
    assert AllBelow(heap, heap[services].fields, heap[services].depth);
    assert was.entries[at].value == Unfold(heap, At(service));
    ServicesDiffer(was, at, Unfold(after, At(s)), Unfold(after, At(t)));
  }

  /** The tree's mutation of the document at hand. */
  lemma {:induction false} AskedIsApplied(heap: Heap, root: nat, services: nat, at: nat, service: nat, m: Mutation, j: nat)
    requires Asked(heap, root, services, at, service, m) && Unfold(heap, At(root)).Mapping?
    requires j < |Unfold(heap, At(root)).entries|
    requires Unfold(heap, At(root)).entries[j] == Entry("services", Unfold(heap, At(services)))
    requires Unfold(heap, At(services)).Mapping? && at < |Unfold(heap, At(services)).entries|
    requires Unfold(heap, At(services)).entries[at] == Entry(m.service, Unfold(heap, At(service)))
    requires Unfold(heap, At(service)).Mapping? && MutateService(Unfold(heap, At(service)).entries, m.kind).Ok?
    ensures var base, service := Unfold(heap, At(root)), Unfold(heap, At(service));
            ApplyMutation(base, m) == Ok(Mapping(base.mark, WithTarget(base.entries, j, at, m.service,
              Mapping(service.mark, MutateService(service.entries, m.kind).value))))
  {
    AppliedTree(Unfold(heap, At(root)), j, at, m);
  }

  /** What the objects hold after the mutation, and what the mutation of the tree gives. */
  ghost predicate CandidateExact(heap: Heap, root: nat, services: nat, at: nat, service: nat, m: Mutation)
    requires Asked(heap, root, services, at, service, m) && SharedMutate(heap, root, services, at, service, m.kind).Ok?
  {
    var after, c := SharedMutate(heap, root, services, at, service, m.kind).value, RootId(heap, root);
    && Sound(after) && Within(after, At(c))
    && ApplyMutation(Unfold(heap, At(root)), m) == Ok(Unfold(after, At(c)))
  }

  lemma {:induction false} KindAccepted(heap: Heap, root: nat, services: nat, at: nat, service: nat, kind: MutationType)
    requires Requested(heap, root, services, at, service) && SharedMutate(heap, root, services, at, service, kind).Ok?
    ensures Unfold(heap, At(service)).Mapping? && Unfold(heap, At(service)).mark == heap[service].mark
    ensures MutateService(Unfold(heap, At(service)).entries, kind).Ok?
  {
  }

  /** On plain trees: equality of the documents, part by part. */
  lemma {:induction false} DocumentsEqualIff(
    base: Value, now: Value, j: nat, at: nat, name: string, target: Value, wanted: Value)
    requires base.Mapping? && now.Mapping? && now.mark == base.mark && |now.entries| == |base.entries|
    requires j < |base.entries| && base.entries[j].value.Mapping? && at < |base.entries[j].value.entries|
    requires now.entries[j] == WithTarget(base.entries, j, at, name, target)[j]
    ensures now == Mapping(base.mark, WithTarget(base.entries, j, at, name, wanted)) <==>
            target == wanted && OthersStay(base.entries, now.entries, j)
  {
    TreesEqualIff(base.entries, now.entries, j, at, name, target, wanted);
  }

  lemma {:induction false} CandidateEqualIff(
    heap: Heap, root: nat, services: nat, at: nat, service: nat, m: Mutation, after: Heap, c: nat, s: nat, t: nat, j: nat,
    wanted: Value)
    requires Asked(heap, root, services, at, service, m) && Placed(heap, root, services, at, service, after)
    requires c == RootId(heap, root) && s == services + |heap| && t == TargetId(heap, service)
    requires ServicesMeanOther(heap, services, after, s)
    requires j < |heap[root].fields| && heap[root].fields[j] == Field("services", At(services))
    requires Unfold(heap, At(service)).Mapping? && MutateService(Unfold(heap, At(service)).entries, m.kind).Ok?
    requires wanted == Mapping(Unfold(heap, At(service)).mark, MutateService(Unfold(heap, At(service)).entries, m.kind).value)
    ensures t < |after| && c < |after|
    ensures ApplyMutation(Unfold(heap, At(root)), m) == Ok(Unfold(after, At(c))) <==>
            Unfold(after, At(t)) == wanted && ServicesPrivate(heap, root, services)
  {
    ServicesEntry(heap, root, services, at, service, after, c, s, t, j);
    AskedIsApplied(heap, root, services, at, service, m, j);
    OthersStayIff(heap, root, services, at, service, after, c, s, j);
    DocumentsEqualIff(Unfold(heap, At(root)), Unfold(after, At(c)), j, at, m.service, Unfold(after, At(t)), wanted);
  }

  lemma {:induction false} CandidateExactIff(heap: Heap, root: nat, services: nat, at: nat, service: nat, m: Mutation)
    requires Asked(heap, root, services, at, service, m) && SharedMutate(heap, root, services, at, service, m.kind).Ok?
    ensures CandidateExact(heap, root, services, at, service, m) <==>
            TargetExact(heap, root, services, at, service, m.kind) && ServicesPrivate(heap, root, services)
  {
    var j :| 0 <= j < |heap[root].fields| && heap[root].fields[j] == Field("services", At(services));
    ServicesAlwaysDiffer(heap, root, services, at, service, m, j);
    KindAccepted(heap, root, services, at, service, m.kind);
    CandidateEqualIff(heap, root, services, at, service, m, SharedMutate(heap, root, services, at, service, m.kind).value,
                      RootId(heap, root), services + |heap|, TargetId(heap, service), j,
                      Mapping(heap[service].mark, MutateService(Unfold(heap, At(service)).entries, m.kind).value));
  }

  /** The candidate is the mutation of the document's tree exactly when no other top-level key reaches the services, and,
      where the socket is removed from a shared list, no other key of the service reaches that list. */
  lemma {:induction false} DocumentIsMutatedIff(heap: Heap, root: nat, services: nat, at: nat, service: nat, m: Mutation)
    requires Asked(heap, root, services, at, service, m) && SharedMutate(heap, root, services, at, service, m.kind).Ok?
    ensures CandidateExact(heap, root, services, at, service, m) <==>
            ServicesPrivate(heap, root, services) && (m.kind.RemoveDockerSocket? ==> VolumesPrivate(heap, service))
  {
    CandidateExactIff(heap, root, services, at, service, m);
    if m.kind.RemoveDockerSocket? {
      var j :| 0 <= j < |heap[root].fields| && heap[root].fields[j] == Field("services", At(services));
      ServiceIsValid(heap, root, services, at, service, j);
      SocketRemovalExactIff(heap, root, services, at, service);
    } else {
      KeyMutationIsExact(heap, root, services, at, service, m.kind);
    }
  }
}
