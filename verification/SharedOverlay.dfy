/** What sharing does to the overlay of a mutation, and documents for which it matters. */
module SharedOverlay {
  import opened Basics
  import opened ComposeValues
  import opened Overlay
  import opened OverlayFaithful
  import opened OverlayWhole
  import opened Risk
  import opened Mutations
  import opened MutationLaws
  import opened SharedMutation
  import opened SharedReach
  import opened SharedDocument
  import opened SharedCandidate

  /** The document `apply_mutation` returns. */
  ghost function Candidate(heap: Heap, root: nat, services: nat, at: nat, service: nat, m: Mutation): Value
    requires Asked(heap, root, services, at, service, m) && SharedMutate(heap, root, services, at, service, m.kind).Ok?
  {
    EditsCopiesOnly(heap, root, services, at, service, m.kind);
    var after := SharedMutate(heap, root, services, at, service, m.kind).value;
    RootCell(heap, root, services, at, service, after, RootId(heap, root));
    Unfold(after, At(RootId(heap, root)))
  }

  lemma {:induction false} RefusedByKind(heap: Heap, root: nat, services: nat, at: nat, service: nat, kind: MutationType)
    requires Requested(heap, root, services, at, service) && Unfold(heap, At(service)).Mapping?
    ensures match MutateService(Unfold(heap, At(service)).entries, kind)
            case Err(e) => SharedMutate(heap, root, services, at, service, kind) == Err(e)
            case Ok(_) => SharedMutate(heap, root, services, at, service, kind).Ok?
  {
  }

  /** Sharing makes no difference to which mutations are refused, and with which error. */
  lemma {:induction false} RefusedAlike(heap: Heap, root: nat, services: nat, at: nat, service: nat, m: Mutation)
    requires Asked(heap, root, services, at, service, m)
    ensures match SharedMutate(heap, root, services, at, service, m.kind)
            case Err(e) => ApplyMutation(Unfold(heap, At(root)), m) == Err(e)
            case Ok(_) => ApplyMutation(Unfold(heap, At(root)), m).Ok?
  {
    var j :| 0 <= j < |heap[root].fields| && heap[root].fields[j] == Field("services", At(services));
    BaseParts(heap, root, services, at, service, j);
    AppliedTree(Unfold(heap, At(root)), j, at, m);
    RefusedByKind(heap, root, services, at, service, m.kind);
  }

  /** The document's own parts. */
  lemma {:induction false} BaseParts(heap: Heap, root: nat, services: nat, at: nat, service: nat, j: nat)
    requires Requested(heap, root, services, at, service)
    requires j < |heap[root].fields| && heap[root].fields[j] == Field("services", At(services))
    ensures var base := Unfold(heap, At(root));
            && base.Mapping? && j < |base.entries| && base.entries[j] == Entry("services", Unfold(heap, At(services)))
    ensures var was := Unfold(heap, At(services));
            was.Mapping? && at < |was.entries| && was.entries[at] == Entry(heap[services].fields[at].key, Unfold(heap, At(service)))
    ensures Unfold(heap, At(service)).Mapping?
  {
    assert AllBelow(heap, heap[root].fields, heap[root].depth);
    assert AllBelow(heap, heap[services].fields, heap[services].depth);
  }

  // ----- the frame check of the overlay

  /** The same keys at the same places. */
  ghost predicate Aligned(was: seq<Entry>, now: seq<Entry>) {
    Keys(was) == Keys(now)
  }

  lemma AlignedKeys(was: seq<Entry>, now: seq<Entry>)
    requires Aligned(was, now)
    ensures KeysKept(was, now) && KeysKept(now, was)
  {
    forall i | 0 <= i < |was| ensures Has(now, was[i].key) && Has(was, now[i].key) {
      assert Keys(was)[i] == was[i].key && Keys(now)[i] == now[i].key;
      HasIffKey(now, was[i].key);
      HasIffKey(was, now[i].key);
    }
  }

  ghost predicate SameMeaningOutside(was: seq<Entry>, now: seq<Entry>)
    requires |was| == |now|
  {
    forall k :: 0 <= k < |was| && was[k].key != "services" ==> Meaning(now[k].value) == Meaning(was[k].value)
  }

  lemma OutsideAt(was: seq<Entry>, now: seq<Entry>, k: nat)
    requires ValidEntries(was) && ValidEntries(now) && Aligned(was, now) && |was| == |now| && k < |was|
    ensures Has(now, was[k].key) && (Same(was[k].value, Get(now, was[k].key)) <==> Meaning(now[k].value) == Meaning(was[k].value))
  {
    assert Keys(was)[k] == was[k].key && Keys(now)[k] == now[k].key;
    GetAt(now, k);
    CanonicalIffSameUpToKeyOrder(was[k].value, now[k].value);
  }

  lemma OutsideIff(was: seq<Entry>, now: seq<Entry>)
    requires ValidEntries(was) && ValidEntries(now) && AllComparable(was) && AllComparable(now)
    requires Aligned(was, now) && |was| == |now|
    ensures KeysKept(was, now)
    ensures OutsideServices(was, now) == if SameMeaningOutside(was, now) then Ok(()) else Err(ChangesOutsideServices)
  {
    AlignedKeys(was, now);
    OutsideServicesSame(was, now);
    forall k | 0 <= k < |was|
      ensures SameOutside(was[k], now) <==> (was[k].key != "services" ==> Meaning(now[k].value) == Meaning(was[k].value))
    {
      OutsideAt(was, now, k);
    }
  }

  lemma FrameIs(base: Value, now: Value)
    requires base.Mapping? && now.Mapping? && Canonicalisable(base) && Canonicalisable(now)
    requires KeysKept(base.entries, now.entries) && KeysKept(now.entries, base.entries)
    requires Has(base.entries, "services") && Get(base.entries, "services").Mapping?
    requires Has(now.entries, "services") && Get(now.entries, "services").Mapping?
    requires KeysKept(ServicesOf(base), ServicesOf(now)) && KeysKept(ServicesOf(now), ServicesOf(base))
    requires AllMappings(ServicesOf(base)) ==> AllMappings(ServicesOf(now))
    ensures CheckFrame(base, now) ==
            if OutsideServices(base.entries, now.entries).Err? then OutsideServices(base.entries, now.entries)
            else if AllMappings(ServicesOf(base)) then Ok(())
            else Err(ServicesNotMappings)
  {
    BothKept(base.entries, now.entries);
    BothKept(ServicesOf(base), ServicesOf(now));
  }

  lemma BothKept(was: seq<Entry>, now: seq<Entry>)
    requires KeysKept(was, now) && KeysKept(now, was)
    ensures SameKeys(was, now)
  {
  }

  /** One service was replaced by another mapping. */
  ghost predicate OneReplaced(was: Value, now: Value, at: nat) {
    && was.Mapping? && now.Mapping? && at < |was.entries|
    && exists target: Value :: target.Mapping? && now.entries == was.entries[at := Entry(was.entries[at].key, target)]
  }

  lemma {:induction false} TargetIsMapping(heap: Heap, root: nat, services: nat, at: nat, service: nat, kind: MutationType)
    requires Requested(heap, root, services, at, service) && SharedMutate(heap, root, services, at, service, kind).Ok?
    ensures var after, t := SharedMutate(heap, root, services, at, service, kind).value, TargetId(heap, service);
            Sound(after) && Within(after, At(t)) && Unfold(after, At(t)).Mapping?
  {
    EditsCopiesOnly(heap, root, services, at, service, kind);
    if !kind.RemoveDockerSocket? {
      KeyMutationIsExact(heap, root, services, at, service, kind);
    } else if HasObject(heap, service, "volumes") {
      TargetCellStays(heap, root, services, at, service);
      TargetBasics(heap, root, services, at, service);
    } else {
      InlineCase(heap, root, services, at, service);
    }
  }

  lemma {:induction false} CandidateParts(heap: Heap, root: nat, services: nat, at: nat, service: nat, m: Mutation, j: nat)
    requires Asked(heap, root, services, at, service, m) && SharedMutate(heap, root, services, at, service, m.kind).Ok?
    requires j < |heap[root].fields| && heap[root].fields[j] == Field("services", At(services))
    ensures var base, now := Unfold(heap, At(root)), Candidate(heap, root, services, at, service, m);
            && base.Mapping? && now.Mapping? && |now.entries| == |base.entries| == |heap[root].fields|
            && base.entries[j].key == "services" == now.entries[j].key
            && OneReplaced(base.entries[j].value, now.entries[j].value, at)
  {
    var after := SharedMutate(heap, root, services, at, service, m.kind).value;
    EditsCopiesOnly(heap, root, services, at, service, m.kind);
    ServicesEntry(heap, root, services, at, service, after, RootId(heap, root), services + |heap|, TargetId(heap, service), j);
    RootField(heap, root, services, at, service, after, RootId(heap, root), j);
    TargetIsMapping(heap, root, services, at, service, m.kind);
  }

  lemma {:induction false} CandidateAligned(heap: Heap, root: nat, services: nat, at: nat, service: nat, m: Mutation, j: nat)
    requires Asked(heap, root, services, at, service, m) && SharedMutate(heap, root, services, at, service, m.kind).Ok?
    requires j < |heap[root].fields| && heap[root].fields[j] == Field("services", At(services))
    ensures var base, now := Unfold(heap, At(root)), Candidate(heap, root, services, at, service, m);
            base.Mapping? && now.Mapping? && |base.entries| == |now.entries| && Aligned(base.entries, now.entries)
    ensures var base, now := Unfold(heap, At(root)), Candidate(heap, root, services, at, service, m);
            SameMeaningOutside(base.entries, now.entries) <==> ServicesPrivate(heap, root, services)
  {
    var base, now := Unfold(heap, At(root)), Candidate(heap, root, services, at, service, m);
    var after, c := SharedMutate(heap, root, services, at, service, m.kind).value, RootId(heap, root);
    CandidateParts(heap, root, services, at, service, m, j);
    ServicesAlwaysDiffer(heap, root, services, at, service, m, j);
    forall k | 0 <= k < |base.entries| ensures EntryFollows(heap, heap[root].fields, services, base.entries, now.entries, k) {
      EntryMeans(heap, root, services, at, service, after, c, services + |heap|, k);
    }
    AllFollow(heap, root, services, base.entries, now.entries);
  }

  /** A top-level key means what it did exactly when it does not reach the services. */
  ghost predicate EntryFollows(heap: Heap, fields: seq<Field>, services: nat, was: seq<Entry>, now: seq<Entry>, k: nat)
    requires |was| == |now| == |fields| && k < |was|
  {
    && now[k].key == was[k].key == fields[k].key
    && (Meaning(now[k].value) == Meaning(was[k].value) <==> !Reaches(heap, fields[k].ref, services))
  }

  lemma AllFollow(heap: Heap, root: nat, services: nat, was: seq<Entry>, now: seq<Entry>)
    requires root < |heap| && |was| == |now| == |heap[root].fields|
    requires forall k :: 0 <= k < |was| ==> EntryFollows(heap, heap[root].fields, services, was, now, k)
    ensures Aligned(was, now)
    ensures SameMeaningOutside(was, now) <==> ServicesPrivate(heap, root, services)
  {
    forall k | 0 <= k < |was|
      ensures Keys(now)[k] == Keys(was)[k] && was[k].key == heap[root].fields[k].key
      ensures Meaning(now[k].value) == Meaning(was[k].value) <==> !Reaches(heap, heap[root].fields[k].ref, services)
    {
      assert EntryFollows(heap, heap[root].fields, services, was, now, k);
    }
    assert Keys(now) == Keys(was);
  }

  // ----- the candidate has no key twice

  lemma MutatedIsValid(mark: Option<string>, entries: seq<Entry>, kind: MutationType)
    requires ValidEntries(entries) && MutateService(entries, kind).Ok?
    ensures Valid(Mapping(mark, MutateService(entries, kind).value))
  {
    MutateServiceFrame(entries, kind);
  }

  lemma {:induction false} ExactIsValid(heap: Heap, root: nat, services: nat, at: nat, service: nat, kind: MutationType)
    requires Requested(heap, root, services, at, service) && SharedMutate(heap, root, services, at, service, kind).Ok?
    requires Valid(Unfold(heap, At(service))) && TargetExact(heap, root, services, at, service, kind)
    ensures var after := SharedMutate(heap, root, services, at, service, kind).value;
            Valid(Unfold(after, At(TargetId(heap, service))))
  {
    MutatedIsValid(heap[service].mark, Unfold(heap, At(service)).entries, kind);
  }

  lemma {:induction false} ListEditValid(h: Heap, after: Heap, t: nat, k: nat, w: nat)
    requires Sound(h) && Sound(after) && ChangedAt(h, after, w) && w < |h| && t < |h| && k < |h[t].fields|
    requires h[t].fields[k].ref == At(w) && Valid(Unfold(h, At(t))) && Unfold(h, At(w)).List?
    requires Unfold(after, At(w)) == List(h[w].mark, WithoutSockets(Unfold(h, At(w)).items))
    ensures Valid(Unfold(after, At(t)))
  {
    FieldValid(h, t, k);
    SublistValid(Unfold(h, At(w)).items);
    StaysValid(h, after, w, At(t));
  }

  lemma {:induction false} VolumesField(heap: Heap, root: nat, services: nat, at: nat, service: nat, h: Heap, t: nat, w: nat)
    returns (k: nat)
    requires Requested(heap, root, services, at, service) && HasObject(heap, service, "volumes")
    requires h == Prepared(heap, services, at, service) && t == TargetId(heap, service)
    requires w == ObjectOf(heap, service, "volumes") + 3 * |heap|
    ensures Sound(h) && t < |h| && k < |h[t].fields| && h[t].fields[k].ref == At(w)
    ensures Unfold(h, At(t)) == Unfold(heap, At(service))
  {
    k := FieldIndex(heap[service].fields, "volumes");
    TargetField(heap, root, services, at, service, k);
    TargetUnfolds(heap, root, services, at, service);
  }

  lemma {:induction false} ListStaysValid(heap: Heap, root: nat, services: nat, at: nat, service: nat, h: Heap, t: nat, w: nat, after: Heap)
    requires Requested(heap, root, services, at, service) && HasObject(heap, service, "volumes")
    requires SharedMutate(heap, root, services, at, service, RemoveDockerSocket) == Ok(after)
    requires Valid(Unfold(heap, At(service)))
    requires h == Prepared(heap, services, at, service) && t == TargetId(heap, service)
    requires w == ObjectOf(heap, service, "volumes") + 3 * |heap|
    ensures Sound(after) && t < |after| && Valid(Unfold(after, At(t)))
  {
    EditsItsVolumes(heap, root, services, at, service);
    Edited(heap, root, services, at, service, w);
    var k := VolumesField(heap, root, services, at, service, h, t, w);
    ListEditValid(h, after, t, k, w);
  }

  lemma {:induction false} TargetIsValid(heap: Heap, root: nat, services: nat, at: nat, service: nat, kind: MutationType)
    requires Requested(heap, root, services, at, service) && SharedMutate(heap, root, services, at, service, kind).Ok?
    requires Valid(Unfold(heap, At(service)))
    ensures var after := SharedMutate(heap, root, services, at, service, kind).value;
            Sound(after) && TargetId(heap, service) < |after| && Valid(Unfold(after, At(TargetId(heap, service))))
  {
    if !kind.RemoveDockerSocket? {
      KeyMutationIsExact(heap, root, services, at, service, kind);
      ExactIsValid(heap, root, services, at, service, kind);
    } else if HasObject(heap, service, "volumes") {
      ListStaysValid(heap, root, services, at, service, Prepared(heap, services, at, service), TargetId(heap, service),
                     ObjectOf(heap, service, "volumes") + 3 * |heap|,
                     SharedMutate(heap, root, services, at, service, kind).value);
    } else {
      InlineCase(heap, root, services, at, service);
      ExactIsValid(heap, root, services, at, service, kind);
    }
  }

  lemma ReplacedIsValid(was: Value, at: nat, target: Value)
    requires was.Mapping? && Valid(was) && at < |was.entries| && Valid(target)
    ensures Valid(Mapping(was.mark, was.entries[at := Entry(was.entries[at].key, target)]))
  {
    assert Keys(was.entries[at := Entry(was.entries[at].key, target)]) == Keys(was.entries);
  }

  lemma {:induction false} ServicesAreValidAfter(
    heap: Heap, root: nat, services: nat, at: nat, service: nat, after: Heap, s: nat, t: nat)
    requires Placed(heap, root, services, at, service, after) && s == services + |heap| && t == TargetId(heap, service)
    requires Valid(Unfold(heap, At(services))) && t < |after| && Valid(Unfold(after, At(t)))
    ensures s < |after| && Valid(Unfold(after, At(s)))
  {
    ServicesUnfold(heap, root, services, at, service, after, s, t);
    ReplacedIsValid(Unfold(heap, At(services)), at, Unfold(after, At(t)));
  }

  lemma {:induction false} DocumentIsValid(
    heap: Heap, root: nat, services: nat, at: nat, service: nat, after: Heap, c: nat, s: nat)
    requires Placed(heap, root, services, at, service, after) && c == RootId(heap, root) && s == services + |heap|
    requires Valid(Unfold(heap, At(root))) && s < |after| && Valid(Unfold(after, At(s)))
    ensures c < |after| && Valid(Unfold(after, At(c)))
  {
    DocumentChangedAt(heap, root, services, at, service, after);
    CopyOf(heap, DeepCopy(heap), At(root), At(c), root, c);
    StaysValid(DeepCopy(heap), after, s, At(c));
  }

  lemma {:induction false} CandidateIsValid(heap: Heap, root: nat, services: nat, at: nat, service: nat, m: Mutation, j: nat)
    requires Asked(heap, root, services, at, service, m) && SharedMutate(heap, root, services, at, service, m.kind).Ok?
    requires j < |heap[root].fields| && heap[root].fields[j] == Field("services", At(services))
    ensures Valid(Candidate(heap, root, services, at, service, m))
  {
    var after := SharedMutate(heap, root, services, at, service, m.kind).value;
    EditsCopiesOnly(heap, root, services, at, service, m.kind);
    ServiceIsValid(heap, root, services, at, service, j);
    TargetIsValid(heap, root, services, at, service, m.kind);
    ServicesAreValidAfter(heap, root, services, at, service, after, services + |heap|, TargetId(heap, service));
    DocumentIsValid(heap, root, services, at, service, after, RootId(heap, root), services + |heap|);
  }

  // ----- the frame check, on plain trees

  lemma ReplacedFrame(base: Value, now: Value, j: nat, at: nat)
    requires Valid(base) && Valid(now) && base.Mapping? && now.Mapping? && |base.entries| == |now.entries|
    requires Aligned(base.entries, now.entries) && j < |base.entries| && base.entries[j].key == "services" == now.entries[j].key
    requires OneReplaced(base.entries[j].value, now.entries[j].value, at)
    ensures Has(base.entries, "services") && Get(base.entries, "services") == base.entries[j].value
    ensures Has(now.entries, "services") && Get(now.entries, "services") == now.entries[j].value
    ensures KeysKept(ServicesOf(base), ServicesOf(now)) && KeysKept(ServicesOf(now), ServicesOf(base))
    ensures AllMappings(ServicesOf(base)) ==> AllMappings(ServicesOf(now))
  {
    GetAt(base.entries, j);
    GetAt(now.entries, j);
    var was, changed := base.entries[j].value.entries, now.entries[j].value.entries;
    assert Keys(changed) == Keys(was);
    AlignedKeys(was, changed);
  }

  lemma AdmittedIff(base: Value, now: Value, j: nat, at: nat)
    requires Valid(base) && Valid(now) && base.Mapping? && now.Mapping? && |base.entries| == |now.entries|
    requires Aligned(base.entries, now.entries) && j < |base.entries| && base.entries[j].key == "services" == now.entries[j].key
    requires OneReplaced(base.entries[j].value, now.entries[j].value, at)
    requires Canonicalisable(base) && Canonicalisable(now)
    ensures CheckFrame(base, now) ==
            if !SameMeaningOutside(base.entries, now.entries) then Err(ChangesOutsideServices)
            else if AllMappings(ServicesOf(base)) then Ok(())
            else Err(ServicesNotMappings)
  {
    ReplacedFrame(base, now, j, at);
    AlignedKeys(base.entries, now.entries);
    AdmittedComparable(base);
    AdmittedComparable(now);
    OutsideIff(base.entries, now.entries);
    FrameIs(base, now);
  }

  /** The checks on the candidate, for every document: when both can be canonicalised, it is refused for a change outside
      the services exactly when another top-level key reaches them, else for a service that is no mapping, else admitted. */
  lemma {:induction false} CandidateAdmittedIff(heap: Heap, root: nat, services: nat, at: nat, service: nat, m: Mutation)
    requires Asked(heap, root, services, at, service, m) && SharedMutate(heap, root, services, at, service, m.kind).Ok?
    ensures var base, now := Unfold(heap, At(root)), Candidate(heap, root, services, at, service, m);
            CheckFrame(base, now) ==
              if !Canonicalisable(base) || !Canonicalisable(now) then Err(InvalidComposeMapping)
              else if !ServicesPrivate(heap, root, services) then Err(ChangesOutsideServices)
              else if AllMappings(ServicesOf(base)) then Ok(())
              else Err(ServicesNotMappings)
  {
    var base, now := Unfold(heap, At(root)), Candidate(heap, root, services, at, service, m);
    if Canonicalisable(base) && Canonicalisable(now) {
      var j :| 0 <= j < |heap[root].fields| && heap[root].fields[j] == Field("services", At(services));
      CandidateParts(heap, root, services, at, service, m, j);
      CandidateAligned(heap, root, services, at, service, m, j);
      CandidateIsValid(heap, root, services, at, service, m, j);
      AdmittedIff(base, now, j, at);
    }
  }

  // ----- documents for which it matters

  /** Two top-level keys, one of them `services`, for the one mapping of services; its one service has these fields. */
  function AliasedServices(fields: seq<Field>): Heap {
    [Cell(0, None, true, fields),
     Cell(1, None, true, [Field("web", At(0))]),
     Cell(2, None, true, [Field("x-all", At(1)), Field("services", At(1))])]
  }

  lemma {:induction false} FlatSound(fields: seq<Field>)
    requires forall k :: 0 <= k < |fields| ==> fields[k].ref.Inline?
    ensures Sound(AliasedServices(fields))
  {
    var heap := AliasedServices(fields);
    forall i | 0 <= i < |heap| ensures AllBelow(heap, heap[i].fields, heap[i].depth) {}
  }

  /** A mapping of one key, unfolded. */
  lemma {:induction false} OneKeyUnfolds(heap: Heap, i: nat, key: string, r: Ref)
    requires Sound(heap) && i < |heap| && heap[i] == Cell(heap[i].depth, None, true, [Field(key, r)])
    ensures Within(heap, r) && Unfold(heap, At(i)) == Mapping(None, [Entry(key, Unfold(heap, r))])
    ensures Valid(Unfold(heap, r)) ==> Valid(Unfold(heap, At(i)))
  {
    assert AllBelow(heap, heap[i].fields, heap[i].depth) && Below(heap, heap[i].fields[0].ref, heap[i].depth);
    var entries := UnfoldFields(heap, heap[i].fields, heap[i].depth);
    assert entries == [Entry(key, Unfold(heap, r))];
    assert Keys(entries) == [key];
  }

  lemma {:induction false} TwoKeysUnfold(heap: Heap, i: nat, a: Field, b: Field)
    requires Sound(heap) && i < |heap| && heap[i] == Cell(heap[i].depth, None, true, [a, b])
    ensures Within(heap, a.ref) && Within(heap, b.ref)
    ensures Unfold(heap, At(i)) == Mapping(None, [Entry(a.key, Unfold(heap, a.ref)), Entry(b.key, Unfold(heap, b.ref))])
    ensures Valid(Unfold(heap, a.ref)) && Valid(Unfold(heap, b.ref)) && a.key != b.key ==> Valid(Unfold(heap, At(i)))
  {
    assert AllBelow(heap, heap[i].fields, heap[i].depth);
    assert Below(heap, heap[i].fields[0].ref, heap[i].depth) && Below(heap, heap[i].fields[1].ref, heap[i].depth);
    var entries := UnfoldFields(heap, heap[i].fields, heap[i].depth);
    assert entries == [Entry(a.key, Unfold(heap, a.ref)), Entry(b.key, Unfold(heap, b.ref))];
    assert Keys(entries) == [a.key, b.key];
  }

  function Unprivilege(): Mutation {
    Mutation("policy:drop_privileged:web", DropPrivileged, "web", true)
  }

  lemma {:induction false} AliasedIsAsked()
    ensures Asked(AliasedServices([Field("privileged", Inline(Atom(Bool(true))))]), 2, 1, 0, 0, Unprivilege())
    ensures Unfold(AliasedServices([Field("privileged", Inline(Atom(Bool(true))))]), At(0)) ==
            Mapping(None, [Entry("privileged", Atom(Bool(true)))])
  {
    var heap := AliasedServices([Field("privileged", Inline(Atom(Bool(true))))]);
    FlatSound([Field("privileged", Inline(Atom(Bool(true))))]);
    OneKeyUnfolds(heap, 0, "privileged", Inline(Atom(Bool(true))));
    OneKeyUnfolds(heap, 1, "web", At(0));
    TwoKeysUnfold(heap, 2, Field("x-all", At(1)), Field("services", At(1)));
    assert heap[2].fields[1] == Field("services", At(1));
  }

  lemma {:induction false} PrivilegedIsDropped()
    ensures MutateService([Entry("privileged", Atom(Bool(true)))], DropPrivileged).Ok?
  {
    var entries := [Entry("privileged", Atom(Bool(true)))];
    assert IndexOf(entries, "privileged") == 0;
  }

  /** `x-all: &s {web: {privileged: true}}` with `services: *s`: the mutation is accepted, and changes `x-all` as well. */
  lemma {:induction false} TopLevelAliasChanges()
    ensures var heap := AliasedServices([Field("privileged", Inline(Atom(Bool(true))))]);
            && Asked(heap, 2, 1, 0, 0, Unprivilege()) && SharedMutate(heap, 2, 1, 0, 0, DropPrivileged).Ok?
            && !ServicesPrivate(heap, 2, 1) && !CandidateExact(heap, 2, 1, 0, 0, Unprivilege())
  {
    var heap := AliasedServices([Field("privileged", Inline(Atom(Bool(true))))]);
    AliasedIsAsked();
    PrivilegedIsDropped();
    RefusedByKind(heap, 2, 1, 0, 0, DropPrivileged);
    assert heap[2].fields[0].key == "x-all" && Reaches(heap, heap[2].fields[0].ref, 1);
    DocumentIsMutatedIff(heap, 2, 1, 0, 0, Unprivilege());
  }

  /** A bind of the Docker socket in the long form. */
  function SocketVolume(): Value {
    Mapping(None, [Entry("type", Atom(Str("bind"))), Entry("source", Atom(Str("/var/run/docker.sock")))])
  }

  lemma SocketPath()
    ensures IsDockerSocket("/var/run/docker.sock")
  {
    var s := "/var/run/docker.sock";
    assert forall i :: 0 <= i < |s| ==> s[i] != '\\';
    assert Slashed(s) == s;
  }

  lemma SocketVolumeIsBind()
    ensures IsSocketBind(SocketVolume())
  {
    SocketPath();
    var entries := SocketVolume().entries;
    assert entries[..1] == [Entry("type", Atom(Str("bind")))];
    assert IndexOf(entries[..1], "type") == 0 && IndexOf(entries, "type") == 0 && IndexOf(entries, "source") == 1;
  }

  /** One list, the volumes of the service and the value of another of its keys. */
  function SharedVolumes(): Heap {
    [Cell(0, None, false, [Field("", Inline(SocketVolume()))]),
     Cell(1, None, true, [Field("volumes", At(0)), Field("x-mounts", At(0))]),
     Cell(2, None, true, [Field("web", At(1))]),
     Cell(3, None, true, [Field("services", At(2))])]
  }

  function Unsocket(): Mutation {
    Mutation("policy:remove_docker_socket:web", RemoveDockerSocket, "web", true)
  }

  lemma {:induction false} SharedVolumesSound()
    ensures Sound(SharedVolumes())
  {
    var heap := SharedVolumes();
    forall i | 0 <= i < |heap| ensures AllBelow(heap, heap[i].fields, heap[i].depth) {}
  }

  lemma SocketVolumeValid()
    ensures Valid(SocketVolume())
  {
    assert Keys(SocketVolume().entries) == ["type", "source"];
  }

  lemma {:induction false} SharedListUnfolds()
    ensures Sound(SharedVolumes()) && Unfold(SharedVolumes(), At(0)) == List(None, [SocketVolume()])
  {
    SharedVolumesSound();
    var heap := SharedVolumes();
    assert AllBelow(heap, heap[0].fields, heap[0].depth);
    assert ValuesOf(UnfoldFields(heap, heap[0].fields, heap[0].depth)) == [SocketVolume()];
  }

  lemma {:induction false} SharedVolumesAsked()
    ensures Asked(SharedVolumes(), 3, 2, 0, 1, Unsocket()) && Valid(Unfold(SharedVolumes(), At(1)))
    ensures Unfold(SharedVolumes(), At(1)) ==
            Mapping(None, [Entry("volumes", List(None, [SocketVolume()])), Entry("x-mounts", List(None, [SocketVolume()]))])
  {
    var heap := SharedVolumes();
    SharedListUnfolds();
    SocketVolumeValid();
    TwoKeysUnfold(heap, 1, Field("volumes", At(0)), Field("x-mounts", At(0)));
    OneKeyUnfolds(heap, 2, "web", At(1));
    OneKeyUnfolds(heap, 3, "services", At(2));
    assert heap[3].fields[0] == Field("services", At(2));
  }

  lemma SocketIsRemoved()
    ensures MutateService([Entry("volumes", List(None, [SocketVolume()])), Entry("x-mounts", List(None, [SocketVolume()]))],
                          RemoveDockerSocket).Ok?
  {
    var list := List(None, [SocketVolume()]);
    var entries := [Entry("volumes", list), Entry("x-mounts", list)];
    SocketVolumeIsBind();
    assert entries[..1] == [Entry("volumes", list)];
    assert IndexOf(entries[..1], "volumes") == 0 && IndexOf(entries, "volumes") == 0;
    assert list.items[0] == SocketVolume();
  }

  lemma {:induction false} VolumesAreShared()
    ensures !VolumesPrivate(SharedVolumes(), 1)
  {
    var heap := SharedVolumes();
    var fields := heap[1].fields;
    assert fields[..1] == [Field("volumes", At(0))];
    assert FieldIndex(fields[..1], "volumes") == 0 && FieldIndex(fields, "volumes") == 0;
    assert Reaches(heap, fields[1].ref, 0);
  }

  /** `volumes: &v [...]` with `x-mounts: *v` in one service: the socket goes from both. */
  lemma {:induction false} AliasedVolumesChange()
    ensures var heap := SharedVolumes();
            && Asked(heap, 3, 2, 0, 1, Unsocket()) && SharedMutate(heap, 3, 2, 0, 1, RemoveDockerSocket).Ok?
            && !VolumesPrivate(heap, 1) && !TargetExact(heap, 3, 2, 0, 1, RemoveDockerSocket)
            && !CandidateExact(heap, 3, 2, 0, 1, Unsocket())
  {
    SharedVolumesAsked();
    SocketIsRemoved();
    RefusedByKind(SharedVolumes(), 3, 2, 0, 1, RemoveDockerSocket);
    VolumesAreShared();
    SocketRemovalExactIff(SharedVolumes(), 3, 2, 0, 1);
    DocumentIsMutatedIff(SharedVolumes(), 3, 2, 0, 1, Unsocket());
  }
}
