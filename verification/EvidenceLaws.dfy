/** What a copy of evidence shows, said of the objects and of the JSON alone. */
module EvidenceLaws {
  import opened Basics
  import opened Evidence
  import V = ComposeValues

  ghost predicate KeysDistinct(heap: Heap) {
    forall id :: heap(id).Dict? ==> Distinct(Names(heap(id).entries))
  }

  /** JSON has no infinity, no NaN and nothing of other types; they are shown as null. */
  ghost predicate ShowsScalar(a: V.Scalar, j: Json) {
    match a
    case NonFinite => j == JLeaf(V.Null)
    case Foreign => j == JLeaf(V.Null)
    case _ => j == JLeaf(a)
  }

  ghost predicate ShowsItems(heap: Heap, items: seq<Id>, active: set<Id>, j: Json)
    decreases j, 0
  {
    && j.JNode? && !j.isMap && |j.children| == |items|
    && forall i :: 0 <= i < |j.children| ==> j.children[i].0 == "" && Shows(heap, items[i], active, j.children[i].1)
  }

  function KeysOf(children: seq<(string, Json)>): seq<string> {
    seq(|children|, i requires 0 <= i < |children| => children[i].0)
  }

  ghost predicate ShowsEntries(heap: Heap, entries: seq<(string, Id)>, active: set<Id>, j: Json)
    decreases j, 0
  {
    && j.JNode? && j.isMap && Increasing(KeysOf(j.children))
    && (forall k :: k in KeysOf(j.children) <==> exists h :: 0 <= h < |entries| && entries[h].0 == k)
    && forall i, h :: 0 <= i < |j.children| && 0 <= h < |entries| && j.children[i].0 == entries[h].0 ==>
         Shows(heap, entries[h].1, active, j.children[i].1)
  }

  ghost predicate ShowsObject(heap: Heap, id: Id, active: set<Id>, j: Json)
    decreases j, 1
  {
    match heap(id)
    case Leaf(_, a) => ShowsScalar(a, j)
    case Array(_, items) => if id in active then j == JLeaf(V.Null) else ShowsItems(heap, items, active + {id}, j)
    case Dict(_, entries, _) => if id in active then j == JLeaf(V.Null) else ShowsEntries(heap, entries, active + {id}, j)
  }

  /** `active`: the objects this one is inside of. */
  ghost predicate Shows(heap: Heap, id: Id, active: set<Id>, j: Json)
    decreases j, 2
  {
    match heap(id).mark
    case None => ShowsObject(heap, id, active, j)
    case Some(tag) =>
      if tag !in {"!reset", "!override"} then j == JLeaf(V.Null)
      else
        && j.JNode? && j.isMap && |j.children| == 2 && j.children[0] == ("$yaml_tag", JLeaf(V.Str(tag)))
        && j.children[1].0 == "value" && ShowsObject(heap, id, active, j.children[1].1)
  }

  // ----- the unlimited copy

  lemma {:induction false} LookupFinds(entries: seq<(string, Id)>, h: nat)
    requires h < |entries| && Distinct(Names(entries))
    ensures Lookup(entries, entries[h].0) == entries[h].1
  {
    if h > 0 {
      assert Names(entries)[0] == entries[0].0 && Names(entries)[h] == entries[h].0;
      forall i, k | 0 <= i < k < |entries| - 1 ensures Names(entries[1..])[i] != Names(entries[1..])[k] {
        assert Names(entries)[i + 1] != Names(entries)[k + 1];
      }
      LookupFinds(entries[1..], h - 1);
    }
  }

  lemma NamesHold(entries: seq<(string, Id)>, k: string)
    ensures k in Names(entries) <==> exists h :: 0 <= h < |entries| && entries[h].0 == k
  {
    if k in Names(entries) {
      var h :| 0 <= h < |entries| && Names(entries)[h] == k;
    }
    if exists h :: 0 <= h < |entries| && entries[h].0 == k {
      var h :| 0 <= h < |entries| && entries[h].0 == k;
      assert Names(entries)[h] == k;
    }
  }

  ghost predicate ShowEach(heap: Heap, todo: seq<(string, Id)>, active: set<Id>, children: seq<(string, Json)>) {
    && |children| == |todo|
    && forall i :: 0 <= i < |todo| ==> children[i].0 == todo[i].0 && Shows(heap, todo[i].1, active, children[i].1)
  }

  lemma DictShown(heap: Heap, entries: seq<(string, Id)>, active: set<Id>, children: seq<(string, Json)>)
    requires Distinct(Names(entries)) && ShowEach(heap, Children(Dict(None, entries, 0)), active, children)
    ensures ShowsEntries(heap, entries, active, JNode(true, children))
  {
    var keys := Sorted(Names(entries));
    SortedIncreasing(Names(entries));
    assert KeysOf(children) == keys;
    forall k ensures k in keys <==> exists h :: 0 <= h < |entries| && entries[h].0 == k { NamesHold(entries, k); }
    forall i, h | 0 <= i < |children| && 0 <= h < |entries| && children[i].0 == entries[h].0
      ensures Shows(heap, entries[h].1, active, children[i].1)
    {
      LookupFinds(entries, h);
    }
  }

  lemma {:induction false} CopyShows(heap: Heap, id: Id, active: set<Id>, depth: nat)
    requires KeysDistinct(heap) && CopyValue(heap, id, active, depth).Some?
    ensures Shows(heap, id, active, CopyValue(heap, id, active, depth).value.value)
    decreases Room(depth), 2, 0
  {
    var mark := heap(id).mark;
    if mark.None? {
      ObjectShows(heap, id, active, depth);
    } else if mark.value in V.ALLOWED_TAGS {
      ObjectShows(heap, id, active, depth + 1);
    }
  }

  lemma {:induction false} ObjectShows(heap: Heap, id: Id, active: set<Id>, depth: nat)
    requires KeysDistinct(heap) && CopyUntagged(heap, id, active, depth).Some?
    ensures ShowsObject(heap, id, active, CopyUntagged(heap, id, active, depth).value.value)
    decreases Room(depth), 1, 0
  {
    var o := heap(id);
    if !o.Leaf? && id !in active {
      ChildrenShow(heap, Children(o), active + {id}, depth + 1);
      var children := CopyChildren(heap, Children(o), active + {id}, depth + 1).value.0;
      if o.Dict? {
        assert Children(o) == Children(Dict(None, o.entries, 0));
        DictShown(heap, o.entries, active + {id}, children);
      }
    }
  }

  lemma {:induction false} ChildrenShow(heap: Heap, todo: seq<(string, Id)>, active: set<Id>, depth: nat)
    requires KeysDistinct(heap) && CopyChildren(heap, todo, active, depth).Some?
    ensures ShowEach(heap, todo, active, CopyChildren(heap, todo, active, depth).value.0)
    decreases Room(depth), 3, |todo|
  {
    if todo != [] {
      CopyShows(heap, todo[0].1, active, depth);
      ChildrenShow(heap, todo[1..], active, depth);
    }
  }

  // ----- markers

  function Unsupported(reason: string): Json {
    JNode(true, [("$evidence_unsupported", JLeaf(V.Str(reason)))])
  }

  /** Somewhere in it stands a marker. */
  predicate SaysUnsupported(j: Json) {
    || j == Unsupported("depth_limit") || j == Unsupported("node_limit")
    || (j.JNode? && exists i :: 0 <= i < |j.children| && SaysUnsupported(j.children[i].1))
  }

  lemma {:induction false} MarkedSays(j: Json)
    requires Marked(j)
    ensures SaysUnsupported(j)
  {
    if !IsMarker(j) {
      var i :| 0 <= i < |j.children| && Marked(j.children[i].1);
      MarkedSays(j.children[i].1);
    }
  }

  // ----- the evidence

  /** A copy says that something is missing, or shows every key with its object: sorted keys, tags beside their values,
      null for what JSON cannot hold and for an object inside itself. */
  lemma EvidenceIsShown(heap: Heap, entries: seq<(string, Id)>)
    requires KeysDistinct(heap) && Distinct(Names(entries))
    ensures SaysUnsupported(SafeEvidence(heap, entries)) || ShowsEntries(heap, entries, {}, SafeEvidence(heap, entries))
  {
    var j := SafeEvidence(heap, entries);
    EvidenceIsExactOrMarked(heap, entries);
    if Marked(j) {
      MarkedSays(j);
    } else {
      var todo := Children(Dict(None, entries, 0));
      ChildrenShow(heap, todo, {}, 1);
      DictShown(heap, entries, {}, CopyChildren(heap, todo, {}, 1).value.0);
    }
  }

  lemma TooManyKeys(heap: Heap, entries: seq<(string, Id)>)
    requires |entries| > 9999
    ensures SafeEvidence(heap, entries) == Unsupported("node_limit")
  {
  }

  /** Lists inside lists without end: each holds the next. */
  ghost predicate Endless(heap: Heap) {
    forall id :: heap(id) == Array(None, [id + 1])
  }

  function Nested(n: nat): Json {
    if n == 0 then Unsupported("depth_limit") else JNode(false, [("", Nested(n - 1))])
  }

  lemma {:induction false} OneChild(heap: Heap, isMap: bool, child: (string, Id), active: set<Id>, depth: nat, remaining: nat)
    requires remaining > 0
    ensures SafeChildren(heap, isMap, [child], active, depth, remaining, []).0 ==
            match SafeValue(heap, child.1, active, depth, remaining).0
            case Pending(reason, halt) => Materialize(reason, halt)
            case Copied(value, halt) => Copied(JNode(isMap, [(child.0, value)]), halt)
  {
    assert [child][1..] == [];
    var (first, left) := SafeValue(heap, child.1, active, depth, remaining);
    if first.Copied? { assert [] + [(child.0, first.value)] == [(child.0, first.value)]; }
  }

  lemma {:induction false} EndlessStep(heap: Heap, id: Id, active: set<Id>, depth: nat, remaining: nat)
    requires Endless(heap) && depth < 48 && remaining >= 2 && id !in active
    ensures SafeValue(heap, id, active, depth, remaining) ==
            SafeChildren(heap, false, [("", id + 1)], active + {id}, depth + 1, remaining - 1, [])
  {
    assert Children(heap(id)) == [("", id + 1)];
  }

  lemma {:induction false} EndlessCut(heap: Heap, id: Id, active: set<Id>, depth: nat, remaining: nat)
    requires Endless(heap) && depth < 48 && remaining >= 50 - depth && forall a :: a in active ==> a < id
    ensures SafeValue(heap, id, active, depth, remaining).0 == Copied(Nested(47 - depth), false)
    decreases 48 - depth
  {
    EndlessStep(heap, id, active, depth, remaining);
    OneChild(heap, false, ("", id + 1), active + {id}, depth + 1, remaining - 1);
    if depth < 47 {
      EndlessCut(heap, id + 1, active + {id}, depth + 1, remaining - 1);
    } else {
      assert SafeValue(heap, id + 1, active + {id}, 48, remaining - 1).0 == Pending(DepthLimit, false);
    }
  }

  /** Endless lists are shown 46 deep, and what is inside them says so. */
  lemma EndlessIsCut(heap: Heap, key: string)
    requires Endless(heap)
    ensures SafeEvidence(heap, [(key, 0)]) == JNode(true, [(key, Nested(46))])
  {
    var entries := [(key, 0)];
    assert Names(entries) == [key] && Sorted([key]) == [key];
    assert Children(Dict(None, entries, 0)) == entries;
    OneChild(heap, true, (key, 0), {}, 1, 9998);
    EndlessCut(heap, 0, {}, 1, 9998);
  }
}
