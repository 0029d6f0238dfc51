/** The widening of a port entry in a list whose entries are shared through YAML aliases. */
module SharedPorts {
  import opened Basics
  import opened ComposeValues
  import opened Mutations
  import opened MutationLaws
  import opened SharedMutation
  import opened SharedReach
  import opened Ports

  /** What the plan does to the copied list: the host of one entry is set in place, and the list is tagged. */
  function HostSet(h: Heap, e: nat): Heap
    requires e < |h|
  {
    h[e := h[e].(fields := SetField(h[e].fields, "host_ip", Atom(Str(ANY_HOST))))]
  }

  function Tag(h: Heap, list: nat): Heap
    requires list < |h|
  {
    h[list := h[list].(mark := Some("!override"))]
  }

  // ----- the entry

  /** An object's own fields do not reach it. */
  lemma {:induction false} OwnFieldsApart(h: Heap, e: nat, p: nat -> bool)
    requires Sound(h) && e < |h| && p == Apart(h, e)
    ensures forall k :: 0 <= k < |h[e].fields| ==> Holds(p, h[e].fields[k].ref) && !Reaches(h, h[e].fields[k].ref, e)
  {
    assert AllBelow(h, h[e].fields, h[e].depth);
    forall k | 0 <= k < |h[e].fields| ensures Holds(p, h[e].fields[k].ref) && !Reaches(h, h[e].fields[k].ref, e) {
      assert Below(h, h[e].fields[k].ref, h[e].depth);
      if Reaches(h, h[e].fields[k].ref, e) { ReachesDown(h, h[e].fields[k].ref, e); }
    }
  }

  lemma {:induction false} HostIsSet(h: Heap, e: nat)
    requires Sound(h) && e < |h| && h[e].isMap
    ensures var after := HostSet(h, e);
            && Sound(after) && ChangedAt(h, after, e) && Unfold(h, At(e)).Mapping?
            && Unfold(after, At(e)) == Mapping(h[e].mark, SetEntry(Unfold(h, At(e)).entries, "host_ip", Atom(Str(ANY_HOST))))
  {
    var p := Apart(h, e);
    ApartIsKept(h, h, e);
    OwnFieldsApart(h, e, p);
    assert AllBelow(h, h[e].fields, h[e].depth);
    SetOnObject(h, e, p, "host_ip", Atom(Str(ANY_HOST)));
  }

  /** With another host the entry means something else. */
  lemma OtherHostMeansOther(mark: Option<string>, entries: seq<Entry>)
    requires ValidEntries(entries) && (Has(entries, "host_ip") ==> Get(entries, "host_ip") != Atom(Str(ANY_HOST)))
    ensures Meaning(Mapping(mark, SetEntry(entries, "host_ip", Atom(Str(ANY_HOST))))) != Meaning(Mapping(mark, entries))
  {
    var after := SetEntry(entries, "host_ip", Atom(Str(ANY_HOST)));
    SetEntryAgrees(entries, "host_ip", Atom(Str(ANY_HOST)));
    assert MeaningFields(after)["host_ip"] == Meaning(Atom(Str(ANY_HOST)));
    if Has(entries, "host_ip") { assert MeaningFields(entries)["host_ip"] == Meaning(Get(entries, "host_ip")); }
  }

  // ----- the list

  lemma {:induction false} TagIsSet(h: Heap, list: nat)
    requires Sound(h) && list < |h| && !h[list].isMap
    ensures var after := Tag(h, list);
            && Sound(after) && ChangedAt(h, after, list) && Unfold(h, At(list)).List?
            && Unfold(after, At(list)) == List(Some("!override"), Unfold(h, At(list)).items)
  {
    var after := Tag(h, list);
    var fields, d := h[list].fields, h[list].depth;
    forall j | 0 <= j < |after| ensures AllBelow(after, after[j].fields, after[j].depth) {
      assert AllBelow(h, h[j].fields, h[j].depth);
      forall k | 0 <= k < |after[j].fields| ensures Below(after, after[j].fields[k].ref, after[j].depth) {
        assert Below(h, h[j].fields[k].ref, h[j].depth);
      }
    }
    ApartIsKept(h, after, list);
    OwnFieldsApart(h, list, Apart(h, list));
    assert AllBelow(h, fields, d) && AllBelow(after, fields, d);
    KeptFields(h, after, Apart(h, list), fields, d);
  }

  lemma {:induction false} ItemAt(h: Heap, list: nat, k: nat)
    requires Sound(h) && list < |h| && !h[list].isMap && k < |h[list].fields|
    ensures Unfold(h, At(list)).List? && |Unfold(h, At(list)).items| == |h[list].fields| && Within(h, h[list].fields[k].ref)
    ensures Unfold(h, At(list)).items[k] == Unfold(h, h[list].fields[k].ref)
  {
    assert AllBelow(h, h[list].fields, h[list].depth) && Below(h, h[list].fields[k].ref, h[list].depth);
  }

  /** One item of the list once the entry's host is set. */
  lemma {:induction false} ItemStaysIff(h: Heap, list: nat, e: nat, k: nat)
    requires Sound(h) && list < |h| && !h[list].isMap && e < |h| && h[e].isMap && k < |h[list].fields|
    requires Valid(Unfold(h, At(list))) && Sound(HostSet(h, e)) && MeansOther(h, HostSet(h, e), At(e))
    ensures var r := h[list].fields[k].ref;
            && Within(h, r) && Within(HostSet(h, e), r)
            && (Unfold(HostSet(h, e), r) == Unfold(h, r) <==> !Reaches(h, r, e))
  {
    var r := h[list].fields[k].ref;
    FieldValid(h, list, k);
    if Reaches(h, r, e) { ReachedDiffers(h, HostSet(h, e), e, r); } else { UnreachedUnfolds(h, HostSet(h, e), e, r); }
  }

  /** No other entry of the list reaches the entry at `i`. */
  ghost predicate EntryPrivate(heap: Heap, list: nat, i: nat, e: nat)
    requires list < |heap|
  {
    forall k :: 0 <= k < |heap[list].fields| && k != i ==> !Reaches(heap, heap[list].fields[k].ref, e)
  }

  lemma ItemsEqualIff(was: seq<Value>, now: seq<Value>, i: nat, v: Value)
    requires |was| == |now| && i < |was| && now[i] == v
    ensures now == was[i := v] <==> forall k :: 0 <= k < |was| && k != i ==> now[k] == was[k]
  {
  }

  lemma {:induction false} WidenedIff(h: Heap, list: nat, i: nat, e: nat)
    requires Sound(h) && list < |h| && !h[list].isMap && e < |h| && h[e].isMap && Valid(Unfold(h, At(list)))
    requires i < |h[list].fields| && h[list].fields[i].ref == At(e) && e != list
    requires Sound(HostSet(h, e)) && MeansOther(h, HostSet(h, e), At(e))
    ensures Unfold(h, At(list)).List? && Unfold(HostSet(h, e), At(list)).List? && i < |Unfold(h, At(list)).items|
    ensures Unfold(HostSet(h, e), At(list)).items == Unfold(h, At(list)).items[i := Unfold(HostSet(h, e), At(e))] <==>
            EntryPrivate(h, list, i, e)
  {
    var after := HostSet(h, e);
    assert after[list] == h[list];
    ItemAt(h, list, i);
    ItemAt(after, list, i);
    var was, now := Unfold(h, At(list)).items, Unfold(after, At(list)).items;
    forall k | 0 <= k < |was| ensures now[k] == was[k] <==> !Reaches(h, h[list].fields[k].ref, e) {
      ItemAt(h, list, k);
      ItemAt(after, list, k);
      ItemStaysIff(h, list, e, k);
    }
    ItemsEqualIff(was, now, i, Unfold(after, At(e)));
  }

  // ----- in the copied document

  lemma {:induction false} CopiedList(heap: Heap, one: Heap, list: nat, n: nat, i: nat, e: nat)
    requires Sound(heap) && list < |heap| && e < |heap| && one == DeepCopy(heap) && n == |heap|
    requires i < |heap[list].fields| && heap[list].fields[i].ref == At(e)
    ensures Sound(one) && list + n < |one| && one[list + n] == ShiftCell(heap[list], n) && e + n < |one|
    ensures one[e + n].isMap == heap[e].isMap && one[list + n].fields[i].ref == At(e + n)
    ensures Unfold(one, At(list + n)) == Unfold(heap, At(list)) && Unfold(one, At(e + n)) == Unfold(heap, At(e))
  {
    CopyUnfolds(heap, At(list));
    CopyUnfolds(heap, At(e));
  }

  lemma {:induction false} PrivateInCopy(heap: Heap, one: Heap, list: nat, n: nat, i: nat, e: nat)
    requires Sound(heap) && list < |heap| && e < |heap| && one == DeepCopy(heap) && n == |heap|
    ensures list + n < |one| && (EntryPrivate(one, list + n, i, e + n) <==> EntryPrivate(heap, list, i, e))
  {
    var fields, copied := heap[list].fields, one[list + n].fields;
    assert AllBelow(heap, fields, heap[list].depth);
    forall k | 0 <= k < |fields|
      ensures Reaches(one, copied[k].ref, e + n) <==> Reaches(heap, fields[k].ref, e)
    {
      assert Below(heap, fields[k].ref, heap[list].depth);
      CopyReaches(heap, fields[k].ref, e);
    }
  }

  /** A loopback entry in the long form names another host. */
  lemma LoopbackHost(entry: Value, b: Binding, addresses: Addresses)
    requires ParseEntry(b.service, b.index, entry, addresses) == Ok(b) && b.short.None? && b.loopback
    requires addresses(ANY_HOST) == Some(false)
    ensures entry.Mapping?
    ensures Has(entry.entries, "host_ip") ==> Get(entry.entries, "host_ip") != Atom(Str(ANY_HOST))
  {
  }

  /** The list the plan writes, when a long entry is widened in the copied document. */
  ghost function WidenedList(one: Heap, list: nat, e: nat): Heap
    requires list < |one| && e < |one|
  {
    Tag(HostSet(one, e), list)
  }

  /** The list of the overlay is the one the tree's plan has. */
  ghost predicate ListExact(was: Value, after: Heap, list: nat, b: Binding)
    requires was.List? && b.index < |was.items| && (b.short.None? ==> was.items[b.index].Mapping?)
  {
    && Sound(after) && list < |after|
    && Unfold(after, At(list)) == List(Some("!override"), was.items[b.index := WidenEntry(was.items[b.index], b)])
  }

  lemma {:induction false} WidenedInCopy(one: Heap, list: nat, e: nat, b: Binding, was: Value, entry: Value)
    requires Sound(one) && list < |one| && !one[list].isMap && e < |one| && one[e].isMap && Valid(was)
    requires was == Unfold(one, At(list)) && entry == Unfold(one, At(e))
    requires b.index < |one[list].fields| && one[list].fields[b.index].ref == At(e) && b.short.None? && entry.Mapping?
    requires Has(entry.entries, "host_ip") ==> Get(entry.entries, "host_ip") != Atom(Str(ANY_HOST))
    ensures was.List? && b.index < |was.items| && was.items[b.index].Mapping?
    ensures ListExact(was, WidenedList(one, list, e), list, b) <==> EntryPrivate(one, list, b.index, e)
  {
    ItemAt(one, list, b.index);
    FieldValid(one, list, b.index);
    HostIsSet(one, e);
    OtherHostMeansOther(one[e].mark, entry.entries);
    EntryIsNotList(one, list, b.index, e);
    WidenedIff(one, list, b.index, e);
    TagIsSet(HostSet(one, e), list);
  }

  lemma EntryIsNotList(h: Heap, list: nat, i: nat, e: nat)
    requires Sound(h) && list < |h| && i < |h[list].fields| && h[list].fields[i].ref == At(e)
    ensures e != list
  {
    assert AllBelow(h, h[list].fields, h[list].depth) && Below(h, h[list].fields[i].ref, h[list].depth);
  }

  /** The list and the one entry of it that is planned for. */
  ghost predicate LongSelected(heap: Heap, list: nat, e: nat, entry: Value, b: Binding) {
    && Sound(heap) && list < |heap| && !heap[list].isMap && e < |heap| && Valid(Unfold(heap, At(list)))
    && b.index < |heap[list].fields| && heap[list].fields[b.index].ref == At(e) && entry == Unfold(heap, At(e))
    && b.short.None? && b.loopback
  }

  /** In the copied document, the list is written as planned for the tree iff no other entry of it reaches the widened one.
      That a planned entry names another host so far is shown above. */
  lemma {:induction false} WidenedListIff(
    heap: Heap, list: nat, e: nat, was: Value, entry: Value, b: Binding, one: Heap, n: nat, l: nat, f: nat)
    requires LongSelected(heap, list, e, entry, b) && was == Unfold(heap, At(list)) && entry.Mapping?
    requires one == DeepCopy(heap) && n == |heap| && l == list + n && f == e + n
    requires Has(entry.entries, "host_ip") ==> Get(entry.entries, "host_ip") != Atom(Str(ANY_HOST))
    ensures l < |one| && f < |one| && was.List? && b.index < |was.items| && was.items[b.index].Mapping?
    ensures ListExact(was, WidenedList(one, l, f), l, b) <==> EntryPrivate(heap, list, b.index, e)
  {
    CopiedList(heap, one, list, n, b.index, e);
    PrivateInCopy(heap, one, list, n, b.index, e);
    EntryIsMapping(heap, e);
    WidenedInCopy(one, l, f, b, was, entry);
  }

  lemma {:induction false} EntryIsMapping(h: Heap, e: nat)
    requires Sound(h) && e < |h| && Unfold(h, At(e)).Mapping?
    ensures h[e].isMap
  {
  }

  // ----- a short entry

  /** A short entry is replaced in the list itself, which nothing in it reaches. */
  lemma {:induction false} ShortWidenedIs(h: Heap, list: nat, i: nat, text: string)
    requires Sound(h) && list < |h| && !h[list].isMap && i < |h[list].fields|
    ensures Unfold(h, At(list)).List? && i < |Unfold(h, At(list)).items|
    ensures var fields := h[list].fields[i := Field(h[list].fields[i].key, Inline(Atom(Str(text))))];
            var after := Tag(h[list := h[list].(fields := fields)], list);
            && Sound(after)
            && Unfold(after, At(list)) == List(Some("!override"), Unfold(h, At(list)).items[i := Atom(Str(text))])
  {
    var f := Field(h[list].fields[i].key, Inline(Atom(Str(text))));
    var fields, d := h[list].fields[i := f], h[list].depth;
    assert AllBelow(h, h[list].fields, d);
    assert AllBelow(h, fields, d);
    ItemAt(h, list, i);
    ApartIsKept(h, h, list);
    OwnFieldsApart(h, list, Apart(h, list));
    EditedFields(h, list, fields, Apart(h, list));
    ReplacedUnfolds(h, h[list].fields, d, i, f);
    TagIsSet(h[list := h[list].(fields := fields)], list);
  }

  // ----- a list for which it matters

  /** The second entry refers to the first under a key of its own. */
  function AliasedEntries(): Heap {
    [Cell(0, None, true, [Field("target", Inline(Atom(Int(80)))), Field("published", Inline(Atom(Int(8080)))),
                          Field("host_ip", Inline(Atom(Str("127.0.0.1"))))]),
     Cell(1, None, true, [Field("target", Inline(Atom(Int(81)))), Field("published", Inline(Atom(Int(8081)))),
                          Field("x-note", At(0))]),
     Cell(2, None, false, [Field("", At(0)), Field("", At(1))])]
  }

  lemma {:induction false} EntriesReach()
    ensures Sound(AliasedEntries()) && !EntryPrivate(AliasedEntries(), 2, 0, 0)
  {
    var heap := AliasedEntries();
    forall i | 0 <= i < |heap| ensures AllBelow(heap, heap[i].fields, heap[i].depth) {}
    FieldOfReaching(heap, 1, 0, 2);
    assert heap[2].fields[1].ref == At(1);
  }

  /** A mapping whose keys differ and whose values are valid. */
  lemma {:induction false} MappingValid(h: Heap, e: nat)
    requires Sound(h) && e < |h| && h[e].isMap
    requires forall j, k :: 0 <= j < k < |h[e].fields| ==> h[e].fields[j].key != h[e].fields[k].key
    requires forall k :: 0 <= k < |h[e].fields| ==> Within(h, h[e].fields[k].ref) && Valid(Unfold(h, h[e].fields[k].ref))
    ensures Unfold(h, At(e)).Mapping? && Valid(Unfold(h, At(e)))
  {
    assert AllBelow(h, h[e].fields, h[e].depth);
    var entries := UnfoldFields(h, h[e].fields, h[e].depth);
    assert forall k :: 0 <= k < |entries| ==> Keys(entries)[k] == h[e].fields[k].key;
  }

  lemma {:induction false} ListValid(h: Heap, list: nat)
    requires Sound(h) && list < |h| && !h[list].isMap
    requires forall k :: 0 <= k < |h[list].fields| ==> Within(h, h[list].fields[k].ref) && Valid(Unfold(h, h[list].fields[k].ref))
    ensures Valid(Unfold(h, At(list)))
  {
    assert AllBelow(h, h[list].fields, h[list].depth);
    var entries := UnfoldFields(h, h[list].fields, h[list].depth);
    forall k | 0 <= k < |ValuesOf(entries)| ensures Valid(ValuesOf(entries)[k]) {
      assert entries[k].value == Unfold(h, h[list].fields[k].ref);
    }
  }

  lemma {:induction false} FirstValid(h: Heap)
    requires h == AliasedEntries() && Sound(h)
    ensures Valid(Unfold(h, At(0)))
  {
    MappingValid(h, 0);
  }

  lemma {:induction false} SecondValid(h: Heap)
    requires h == AliasedEntries() && Sound(h)
    ensures Valid(Unfold(h, At(1)))
  {
    FirstValid(h);
    MappingValid(h, 1);
  }

  lemma {:induction false} EntriesValid(h: Heap)
    requires h == AliasedEntries() && Sound(h)
    ensures Valid(Unfold(h, At(2)))
  {
    FirstValid(h);
    SecondValid(h);
    ListValid(h, 2);
  }

  lemma {:induction false} FirstEntryIs(h: Heap)
    requires h == AliasedEntries() && Sound(h)
    ensures Unfold(h, At(0)) == Mapping(None, [Entry("target", Atom(Int(80))), Entry("published", Atom(Int(8080))),
                                               Entry("host_ip", Atom(Str("127.0.0.1")))])
  {
    assert AllBelow(h, h[0].fields, 0);
    var entries := UnfoldFields(h, h[0].fields, 0);
    assert entries[0].value == Atom(Int(80)) && entries[1].value == Atom(Int(8080)) && entries[2].value == Atom(Str("127.0.0.1"));
    assert entries == [Entry("target", Atom(Int(80))), Entry("published", Atom(Int(8080))), Entry("host_ip", Atom(Str("127.0.0.1")))];
  }

  lemma {:induction false} FirstEntryParses(entry: Value, addresses: Addresses)
    requires entry == Mapping(None, [Entry("target", Atom(Int(80))), Entry("published", Atom(Int(8080))),
                                     Entry("host_ip", Atom(Str("127.0.0.1")))])
    requires addresses("127.0.0.1") == Some(true)
    ensures ParseEntry("web", 0, entry, addresses) ==
            Ok(Binding("web", 0, 80, 8080, false, Some("127.0.0.1"), true, None))
    ensures Has(entry.entries, "host_ip") && Get(entry.entries, "host_ip") == Atom(Str("127.0.0.1"))
  {
    var entries := entry.entries;
    assert IndexOf(entries, "host_ip") == 2 && IndexOf(entries, "published") == 1 && IndexOf(entries, "target") == 0;
    assert !Has(entries, "protocol");
  }

  /** `ports: [&p {target: 80, published: 8080, host_ip: 127.0.0.1}, {target: 81, published: 8081, x-note: *p}]`: the first
      entry is planned for, and widening it changes the second. */
  lemma {:induction false} SecondEntryChanges(heap: Heap, one: Heap, addresses: Addresses, b: Binding)
    requires heap == AliasedEntries() && one == DeepCopy(heap) && addresses("127.0.0.1") == Some(true)
    requires b == Binding("web", 0, 80, 8080, false, Some("127.0.0.1"), true, None)
    ensures Sound(heap) && ParseEntry("web", 0, Unfold(heap, At(0)), addresses) == Ok(b)
    ensures var was := Unfold(heap, At(2));
            && was.List? && 0 < |was.items| && was.items[0].Mapping?
            && !ListExact(was, WidenedList(one, 5, 3), 5, b)
  {
    EntriesReach();
    EntriesValid(heap);
    FirstEntryIs(heap);
    FirstEntryParses(Unfold(heap, At(0)), addresses);
    WidenedListIff(heap, 2, 0, Unfold(heap, At(2)), Unfold(heap, At(0)), b, one, 3, 5, 3);
  }
}
