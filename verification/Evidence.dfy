/** The bounded copy of a finding's evidence: at most 10000 nodes, 48 levels, and no cycle followed. */
module Evidence {
  import opened Basics
  import V = ComposeValues

  const MAX_DEPTH: nat := 48
  const MAX_NODES: nat := 10000

  /** An object's identity. */
  type Id = nat

  /** What an object is. `others` counts the keys that are not strings; the children of a list carry no key. */
  datatype Object =
    | Leaf(mark: Option<string>, scalar: V.Scalar)
    | Dict(mark: Option<string>, entries: seq<(string, Id)>, others: nat)
    | Array(mark: Option<string>, items: seq<Id>)

  /** Objects may contain themselves. */
  type Heap = Id -> Object

  /** The copy. A list is a node whose children carry no key. */
  datatype Json = JLeaf(scalar: V.Scalar) | JNode(isMap: bool, children: seq<(string, Json)>)

  datatype Reason = DepthLimit | NodeLimit

  datatype Outcome = Copied(value: Json, halt: bool) | Pending(reason: Reason, halt: bool)

  function Marker(reason: Reason): Json {
    JNode(true, [("$evidence_unsupported", JLeaf(V.Str(if reason.DepthLimit? then "depth_limit" else "node_limit")))])
  }

  function WithTag(tag: string, value: Json): Json {
    JNode(true, [("$yaml_tag", JLeaf(V.Str(tag))), ("value", value)])
  }

  /** Scalars JSON cannot hold become null. */
  function Clean(a: V.Scalar): V.Scalar {
    if a.NonFinite? || a.Foreign? then V.Null else a
  }

  function Names(entries: seq<(string, Id)>): seq<string> {
    seq(|entries|, i requires 0 <= i < |entries| => entries[i].0)
  }

  function Lookup(entries: seq<(string, Id)>, key: string): Id {
    if entries == [] then 0 else if entries[0].0 == key then entries[0].1 else Lookup(entries[1..], key)
  }

  /** The children in the order they are copied: by key, or by position. */
  function Children(o: Object): seq<(string, Id)> {
    match o
    case Leaf(_, _) => []
    case Dict(_, entries, _) =>
      var keys := Sorted(Names(entries));
      seq(|keys|, i requires 0 <= i < |keys| => (keys[i], Lookup(entries, keys[i])))
    case Array(_, items) => seq(|items|, i requires 0 <= i < |items| => ("", items[i]))
  }

  /** How many keys are paid for in advance. */
  function KeyCost(o: Object): nat {
    if o.Dict? then |o.entries| + o.others else 0
  }

  /** How many nodes must still be free before the children are entered. */
  function Ahead(o: Object): nat {
    if o.Array? then |o.items| else KeyCost(o)
  }

  // ----- the copy, with the budget passed along

  function Room(depth: nat): nat {
    if depth < MAX_DEPTH then MAX_DEPTH - depth else 0
  }

  function Materialize(reason: Reason, halt: bool): Outcome {
    Copied(Marker(reason), halt)
  }

  function SafeScalar(a: V.Scalar, remaining: nat): (Outcome, nat) {
    if remaining == 0 then (Pending(NodeLimit, true), 0) else (Copied(JLeaf(a), false), remaining - 1)
  }

  function SafeValue(heap: Heap, id: Id, active: set<Id>, depth: nat, remaining: nat): (Outcome, nat)
    decreases Room(depth), 2, 0
  {
    var mark := heap(id).mark;
    if mark.None? then SafeUntagged(heap, id, active, depth, remaining)
    else if mark.value !in V.ALLOWED_TAGS then SafeScalar(V.Null, remaining)
    else if depth >= MAX_DEPTH then (Pending(DepthLimit, false), remaining)
    else if remaining == 0 then (Pending(NodeLimit, true), 0)
    else
      var (inner, left) := SafeUntagged(heap, id, active, depth + 1, remaining - 1);
      match inner
      case Pending(reason, halt) => (Materialize(reason, halt), left)
      case Copied(value, halt) => (Copied(WithTag(mark.value, value), halt), left)
  }

  function SafeUntagged(heap: Heap, id: Id, active: set<Id>, depth: nat, remaining: nat): (Outcome, nat)
    decreases Room(depth), 1, 0
  {
    var o := heap(id);
    if o.Leaf? then SafeScalar(Clean(o.scalar), remaining)
    else if id in active then SafeScalar(V.Null, remaining)
    else if depth >= MAX_DEPTH then (Pending(DepthLimit, false), remaining)
    else if remaining == 0 then (Pending(NodeLimit, true), 0)
    else if Ahead(o) > remaining - 1 then
      (if remaining == 1 then Pending(NodeLimit, true) else Copied(Marker(NodeLimit), false), remaining - 1)
    else SafeChildren(heap, o.Dict?, Children(o), active + {id}, depth + 1, remaining - 1 - KeyCost(o), [])
  }

  function SafeChildren(heap: Heap, isMap: bool, todo: seq<(string, Id)>, active: set<Id>, depth: nat, remaining: nat,
                        done: seq<(string, Json)>): (Outcome, nat)
    decreases Room(depth), 3, |todo|
  {
    if todo == [] then (Copied(JNode(isMap, done), false), remaining)
    else if remaining == 0 then (Pending(NodeLimit, true), 0)
    else
      var (first, left) := SafeValue(heap, todo[0].1, active, depth, remaining);
      match first
      case Pending(reason, halt) => (Materialize(reason, halt), left)
      case Copied(value, halt) =>
        var more := done + [(todo[0].0, value)];
        if halt then (Copied(JNode(isMap, more), true), left)
        else SafeChildren(heap, isMap, todo[1..], active, depth, left, more)
  }

  /** `_json_safe_evidence`: the mapping at the top has no tag and is never on the path. */
  function SafeEvidence(heap: Heap, entries: seq<(string, Id)>): Json {
    if |entries| > MAX_NODES - 1 then Marker(NodeLimit)
    else
      match SafeChildren(heap, true, Children(Dict(None, entries, 0)), {}, 1, MAX_NODES - 1 - |entries|, []).0
      case Copied(value, _) => value
      case Pending(reason, _) => Marker(reason)
  }

  // ----- nesting

  predicate NestsWithin(j: Json, n: nat) {
    j.JLeaf? || (n > 0 && forall i :: 0 <= i < |j.children| ==> NestsWithin(j.children[i].1, n - 1))
  }

  predicate AllWithin(children: seq<(string, Json)>, n: nat) {
    forall i :: 0 <= i < |children| ==> NestsWithin(children[i].1, n)
  }

  lemma MarkerIsFlat(reason: Reason, n: nat)
    requires n > 0
    ensures NestsWithin(Marker(reason), n)
  {
    var m := Marker(reason);
    forall i | 0 <= i < |m.children| ensures NestsWithin(m.children[i].1, n - 1) {}
  }

  lemma TagNests(tag: string, value: Json, n: nat)
    requires NestsWithin(value, n)
    ensures NestsWithin(WithTag(tag, value), n + 1)
  {
    var j := WithTag(tag, value);
    forall i | 0 <= i < |j.children| ensures NestsWithin(j.children[i].1, n) {}
  }

  lemma {:induction false} ValueNests(heap: Heap, id: Id, active: set<Id>, depth: nat, remaining: nat)
    requires depth <= MAX_DEPTH
    ensures var (r, left) := SafeValue(heap, id, active, depth, remaining);
            left <= remaining && (r.Copied? ==> NestsWithin(r.value, Room(depth)))
    decreases Room(depth), 2, 0
  {
    var mark := heap(id).mark;
    if mark.None? {
      UntaggedNests(heap, id, active, depth, remaining);
    } else if mark.value in V.ALLOWED_TAGS && depth < MAX_DEPTH && remaining > 0 {
      UntaggedNests(heap, id, active, depth + 1, remaining - 1);
      var (inner, _) := SafeUntagged(heap, id, active, depth + 1, remaining - 1);
      match inner
      case Pending(reason, _) => MarkerIsFlat(reason, Room(depth));
      case Copied(value, _) => TagNests(mark.value, value, Room(depth + 1));
    }
  }

  lemma {:induction false} UntaggedNests(heap: Heap, id: Id, active: set<Id>, depth: nat, remaining: nat)
    requires depth <= MAX_DEPTH
    ensures var (r, left) := SafeUntagged(heap, id, active, depth, remaining);
            left <= remaining && (r.Copied? ==> NestsWithin(r.value, Room(depth)))
    decreases Room(depth), 1, 0
  {
    var o := heap(id);
    if !o.Leaf? && id !in active && depth < MAX_DEPTH && remaining > 0 {
      MarkerIsFlat(NodeLimit, Room(depth));
      if Ahead(o) <= remaining - 1 {
        ChildrenNest(heap, o.Dict?, Children(o), active + {id}, depth + 1, remaining - 1 - KeyCost(o), []);
      }
    }
  }

  lemma {:induction false} ChildrenNest(heap: Heap, isMap: bool, todo: seq<(string, Id)>, active: set<Id>, depth: nat,
                                        remaining: nat, done: seq<(string, Json)>)
    requires depth <= MAX_DEPTH && AllWithin(done, Room(depth))
    ensures var (r, left) := SafeChildren(heap, isMap, todo, active, depth, remaining, done);
            left <= remaining && (r.Copied? ==> NestsWithin(r.value, Room(depth) + 1))
    decreases Room(depth), 3, |todo|
  {
    if todo != [] && remaining > 0 {
      ValueNests(heap, todo[0].1, active, depth, remaining);
      var (first, left) := SafeValue(heap, todo[0].1, active, depth, remaining);
      match first
      case Pending(reason, _) => MarkerIsFlat(reason, Room(depth) + 1);
      case Copied(value, halt) =>
        var more := done + [(todo[0].0, value)];
        assert AllWithin(more, Room(depth));
        if !halt { ChildrenNest(heap, isMap, todo[1..], active, depth, left, more); }
    }
  }

  // ----- what an unbounded copy would be, and cost

  datatype Whole = Whole(value: Json, cost: nat)

  /** The copy without a budget; None when it nests too deeply. */
  function CopyValue(heap: Heap, id: Id, active: set<Id>, depth: nat): Option<Whole>
    decreases Room(depth), 2, 0
  {
    var mark := heap(id).mark;
    if mark.None? then CopyUntagged(heap, id, active, depth)
    else if mark.value !in V.ALLOWED_TAGS then Some(Whole(JLeaf(V.Null), 1))
    else if depth >= MAX_DEPTH then None
    else
      match CopyUntagged(heap, id, active, depth + 1)
      case None => None
      case Some(w) => Some(Whole(WithTag(mark.value, w.value), w.cost + 1))
  }

  function CopyUntagged(heap: Heap, id: Id, active: set<Id>, depth: nat): Option<Whole>
    decreases Room(depth), 1, 0
  {
    var o := heap(id);
    if o.Leaf? then Some(Whole(JLeaf(Clean(o.scalar)), 1))
    else if id in active then Some(Whole(JLeaf(V.Null), 1))
    else if depth >= MAX_DEPTH then None
    else
      match CopyChildren(heap, Children(o), active + {id}, depth + 1)
      case None => None
      case Some((children, cost)) => Some(Whole(JNode(o.Dict?, children), 1 + KeyCost(o) + cost))
  }

  function CopyChildren(heap: Heap, todo: seq<(string, Id)>, active: set<Id>, depth: nat): Option<(seq<(string, Json)>, nat)>
    decreases Room(depth), 3, |todo|
  {
    if todo == [] then Some(([], 0))
    else
      match CopyValue(heap, todo[0].1, active, depth)
      case None => None
      case Some(w) =>
        match CopyChildren(heap, todo[1..], active, depth)
        case None => None
        case Some((rest, cost)) => Some(([(todo[0].0, w.value)] + rest, w.cost + cost))
  }

  lemma {:induction false} CostIsPositive(heap: Heap, id: Id, active: set<Id>, depth: nat)
    ensures var w := CopyValue(heap, id, active, depth); w.Some? ==> w.value.cost >= 1
  {
  }

  lemma {:induction false} CostCoversChildren(heap: Heap, todo: seq<(string, Id)>, active: set<Id>, depth: nat)
    ensures var w := CopyChildren(heap, todo, active, depth); w.Some? ==> w.value.1 >= |todo|
    decreases |todo|
  {
    if todo != [] {
      CostIsPositive(heap, todo[0].1, active, depth);
      CostCoversChildren(heap, todo[1..], active, depth);
    }
  }

  lemma ChildrenCount(o: Object)
    requires o.Array?
    ensures |Children(o)| == |o.items|
  {
  }

  // ----- what fits is copied exactly

  lemma {:induction false} ValueFits(heap: Heap, id: Id, active: set<Id>, depth: nat, remaining: nat)
    requires var w := CopyValue(heap, id, active, depth); w.Some? && w.value.cost <= remaining
    ensures var w := CopyValue(heap, id, active, depth).value;
            SafeValue(heap, id, active, depth, remaining) == (Copied(w.value, false), remaining - w.cost)
    decreases Room(depth), 2, 0
  {
    var mark := heap(id).mark;
    CostIsPositive(heap, id, active, depth);
    if mark.None? {
      UntaggedFits(heap, id, active, depth, remaining);
    } else if mark.value in V.ALLOWED_TAGS {
      UntaggedFits(heap, id, active, depth + 1, remaining - 1);
    }
  }

  lemma {:induction false} UntaggedFits(heap: Heap, id: Id, active: set<Id>, depth: nat, remaining: nat)
    requires var w := CopyUntagged(heap, id, active, depth); w.Some? && w.value.cost <= remaining
    ensures var w := CopyUntagged(heap, id, active, depth).value;
            SafeUntagged(heap, id, active, depth, remaining) == (Copied(w.value, false), remaining - w.cost)
    decreases Room(depth), 1, 0
  {
    var o := heap(id);
    if !o.Leaf? && id !in active {
      CostCoversChildren(heap, Children(o), active + {id}, depth + 1);
      var (children, cost) := CopyChildren(heap, Children(o), active + {id}, depth + 1).value;
      if o.Array? { ChildrenCount(o); }
      ChildrenFit(heap, o.Dict?, Children(o), active + {id}, depth + 1, remaining - 1 - KeyCost(o), []);
      assert [] + children == children;
    }
  }

  lemma {:induction false} ChildrenFit(heap: Heap, isMap: bool, todo: seq<(string, Id)>, active: set<Id>, depth: nat,
                                       remaining: nat, done: seq<(string, Json)>)
    requires var w := CopyChildren(heap, todo, active, depth); w.Some? && w.value.1 <= remaining
    ensures var (children, cost) := CopyChildren(heap, todo, active, depth).value;
            SafeChildren(heap, isMap, todo, active, depth, remaining, done) ==
              (Copied(JNode(isMap, done + children), false), remaining - cost)
    decreases Room(depth), 3, |todo|
  {
    if todo == [] {
      assert done + [] == done;
    } else {
      CostIsPositive(heap, todo[0].1, active, depth);
      ValueFits(heap, todo[0].1, active, depth, remaining);
      var w := CopyValue(heap, todo[0].1, active, depth).value;
      var (rest, cost) := CopyChildren(heap, todo[1..], active, depth).value;
      var first := (todo[0].0, w.value);
      ChildrenFit(heap, isMap, todo[1..], active, depth, remaining - w.cost, done + [first]);
      assert (done + [first]) + rest == done + ([first] + rest);
    }
  }

  // ----- what does not is marked

  predicate IsMarker(j: Json) {
    j == Marker(DepthLimit) || j == Marker(NodeLimit)
  }

  /** A marker stands somewhere in the copy. */
  predicate Marked(j: Json) {
    IsMarker(j) || (j.JNode? && exists i :: 0 <= i < |j.children| && Marked(j.children[i].1))
  }

  predicate AnyMarked(children: seq<(string, Json)>) {
    exists i :: 0 <= i < |children| && Marked(children[i].1)
  }

  /** The copy is the whole value at its exact cost, or it carries a marker. */
  ghost predicate ExactOrMarked(w: Option<Whole>, r: Outcome, remaining: nat, left: nat) {
    r.Copied? ==> Marked(r.value) || (!r.halt && w.Some? && w.value.value == r.value && w.value.cost + left == remaining)
  }

  ghost predicate ChildrenExactOrMarked(w: Option<(seq<(string, Json)>, nat)>, isMap: bool, done: seq<(string, Json)>,
                                        r: Outcome, remaining: nat, left: nat) {
    r.Copied? ==>
      || Marked(r.value)
      || (!r.halt && w.Some? && r.value == JNode(isMap, done + w.value.0) && w.value.1 + left == remaining)
  }

  lemma TagIsMarked(tag: string, value: Json)
    requires Marked(value)
    ensures Marked(WithTag(tag, value))
  {
    assert Marked(WithTag(tag, value).children[1].1);
  }

  lemma AnyMarkedMore(a: seq<(string, Json)>, b: seq<(string, Json)>)
    requires AnyMarked(a)
    ensures AnyMarked(a + b)
  {
    var i :| 0 <= i < |a| && Marked(a[i].1);
    assert (a + b)[i] == a[i];
  }

  lemma {:induction false} ValueMarks(heap: Heap, id: Id, active: set<Id>, depth: nat, remaining: nat)
    ensures var (r, left) := SafeValue(heap, id, active, depth, remaining);
            ExactOrMarked(CopyValue(heap, id, active, depth), r, remaining, left) && (r.Copied? && r.halt ==> Marked(r.value))
    decreases Room(depth), 2, 0
  {
    var mark := heap(id).mark;
    if mark.None? {
      UntaggedMarks(heap, id, active, depth, remaining);
    } else if mark.value in V.ALLOWED_TAGS && depth < MAX_DEPTH && remaining > 0 {
      UntaggedMarks(heap, id, active, depth + 1, remaining - 1);
      var (inner, _) := SafeUntagged(heap, id, active, depth + 1, remaining - 1);
      if inner.Copied? && Marked(inner.value) { TagIsMarked(mark.value, inner.value); }
    }
  }

  lemma {:induction false} UntaggedMarks(heap: Heap, id: Id, active: set<Id>, depth: nat, remaining: nat)
    ensures var (r, left) := SafeUntagged(heap, id, active, depth, remaining);
            ExactOrMarked(CopyUntagged(heap, id, active, depth), r, remaining, left) && (r.Copied? && r.halt ==> Marked(r.value))
    decreases Room(depth), 1, 0
  {
    var o := heap(id);
    if !o.Leaf? && id !in active && depth < MAX_DEPTH && remaining > 0 && Ahead(o) <= remaining - 1 {
      var free := remaining - 1 - KeyCost(o);
      ChildrenMark(heap, o.Dict?, Children(o), active + {id}, depth + 1, free, []);
      var w := CopyChildren(heap, Children(o), active + {id}, depth + 1);
      if w.Some? { assert [] + w.value.0 == w.value.0; }
    }
  }

  lemma {:induction false} ChildrenMark(heap: Heap, isMap: bool, todo: seq<(string, Id)>, active: set<Id>, depth: nat,
                                        remaining: nat, done: seq<(string, Json)>)
    ensures var (r, left) := SafeChildren(heap, isMap, todo, active, depth, remaining, done);
            && ChildrenExactOrMarked(CopyChildren(heap, todo, active, depth), isMap, done, r, remaining, left)
            && (r.Copied? && (r.halt || AnyMarked(done)) ==> Marked(r.value))
    decreases Room(depth), 3, |todo|
  {
    if todo == [] {
      assert done + [] == done;
    } else if remaining > 0 {
      ValueMarks(heap, todo[0].1, active, depth, remaining);
      var (first, left) := SafeValue(heap, todo[0].1, active, depth, remaining);
      if first.Copied? {
        var child := (todo[0].0, first.value);
        if AnyMarked(done) { AnyMarkedMore(done, [child]); }
        assert (done + [child])[|done|] == child;
        if !first.halt {
          ChildrenMark(heap, isMap, todo[1..], active, depth, left, done + [child]);
          var rest := CopyChildren(heap, todo[1..], active, depth);
          if rest.Some? { assert (done + [child]) + rest.value.0 == done + ([child] + rest.value.0); }
        }
      }
    }
  }

  // ----- the evidence as a whole

  /** What the evidence would be without limits. */
  function WholeEvidence(heap: Heap, entries: seq<(string, Id)>): Option<Whole> {
    match CopyChildren(heap, Children(Dict(None, entries, 0)), {}, 1)
    case None => None
    case Some((children, cost)) => Some(Whole(JNode(true, children), 1 + |entries| + cost))
  }

  /** Evidence that fits is copied exactly; any other is marked; no copy nests past the limit. */
  lemma EvidenceIsExactOrMarked(heap: Heap, entries: seq<(string, Id)>)
    ensures var j := SafeEvidence(heap, entries);
            var w := WholeEvidence(heap, entries);
            && NestsWithin(j, MAX_DEPTH)
            && (w.Some? && w.value.cost <= MAX_NODES ==> j == w.value.value)
            && (Marked(j) || (w.Some? && w.value.cost <= MAX_NODES && j == w.value.value))
  {
    MarkerIsFlat(NodeLimit, MAX_DEPTH);
    MarkerIsFlat(DepthLimit, MAX_DEPTH);
    if |entries| <= MAX_NODES - 1 {
      var todo := Children(Dict(None, entries, 0));
      var free := MAX_NODES - 1 - |entries|;
      ChildrenNest(heap, true, todo, {}, 1, free, []);
      ChildrenMark(heap, true, todo, {}, 1, free, []);
      var w := CopyChildren(heap, todo, {}, 1);
      if w.Some? {
        assert [] + w.value.0 == w.value.0;
        if w.value.1 <= free { ChildrenFit(heap, true, todo, {}, 1, free, []); }
      }
    }
  }

  // ----- what a copy cannot hold

  /** The copy shows the object, its tag and its children as they are. */
  ghost predicate Mirrors(heap: Heap, id: Id, j: Json)
    decreases j, 2
  {
    var mark := heap(id).mark;
    if mark.None? then MirrorsObject(heap, id, j)
    else
      && mark.value in V.ALLOWED_TAGS && j.JNode? && |j.children| == 2
      && j == WithTag(mark.value, j.children[1].1) && MirrorsObject(heap, id, j.children[1].1)
  }

  ghost predicate MirrorsObject(heap: Heap, id: Id, j: Json)
    decreases j, 1
  {
    var o := heap(id);
    if o.Leaf? then j == JLeaf(o.scalar)
    else j.JNode? && j.isMap == o.Dict? && (o.Dict? ==> o.others == 0) && MirrorsAll(heap, Children(o), j)
  }

  ghost predicate MirrorsAll(heap: Heap, objects: seq<(string, Id)>, j: Json)
    decreases j, 0
  {
    && j.JNode? && |objects| == |j.children|
    && forall i :: 0 <= i < |j.children| ==>
         objects[i].0 == j.children[i].0 && Mirrors(heap, objects[i].1, j.children[i].1)
  }

  /** Nothing in it is without a place in a copy: tags are known, scalars are JSON's, keys are strings, no object is
      inside itself. */
  ghost predicate Lossless(heap: Heap, id: Id, active: set<Id>, depth: nat)
    decreases Room(depth), 2
  {
    var mark := heap(id).mark;
    if mark.None? then LosslessObject(heap, id, active, depth)
    else mark.value in V.ALLOWED_TAGS && depth < MAX_DEPTH && LosslessObject(heap, id, active, depth + 1)
  }

  ghost predicate LosslessObject(heap: Heap, id: Id, active: set<Id>, depth: nat)
    decreases Room(depth), 1
  {
    var o := heap(id);
    if o.Leaf? then Clean(o.scalar) == o.scalar
    else
      && id !in active && depth < MAX_DEPTH && (o.Dict? ==> o.others == 0)
      && LosslessAll(heap, Children(o), active + {id}, depth + 1)
  }

  ghost predicate LosslessAll(heap: Heap, objects: seq<(string, Id)>, active: set<Id>, depth: nat)
    decreases Room(depth), 3
  {
    forall i :: 0 <= i < |objects| ==> Lossless(heap, objects[i].1, active, depth)
  }

  lemma {:induction false} CopyMirrorsIff(heap: Heap, id: Id, active: set<Id>, depth: nat)
    requires CopyValue(heap, id, active, depth).Some?
    ensures Mirrors(heap, id, CopyValue(heap, id, active, depth).value.value) <==> Lossless(heap, id, active, depth)
    decreases Room(depth), 2, 0
  {
    var mark := heap(id).mark;
    if mark.None? {
      ObjectMirrorsIff(heap, id, active, depth);
    } else if mark.value in V.ALLOWED_TAGS {
      ObjectMirrorsIff(heap, id, active, depth + 1);
      var inner := CopyUntagged(heap, id, active, depth + 1).value.value;
      assert WithTag(mark.value, inner).children[1].1 == inner;
    }
  }

  lemma {:induction false} ObjectMirrorsIff(heap: Heap, id: Id, active: set<Id>, depth: nat)
    requires CopyUntagged(heap, id, active, depth).Some?
    ensures MirrorsObject(heap, id, CopyUntagged(heap, id, active, depth).value.value) <==> LosslessObject(heap, id, active, depth)
    decreases Room(depth), 1, 0
  {
    var o := heap(id);
    if !o.Leaf? && id !in active { AllMirrorIff(heap, o.Dict?, Children(o), active + {id}, depth + 1); }
  }

  lemma {:induction false} AllMirrorIff(heap: Heap, isMap: bool, objects: seq<(string, Id)>, active: set<Id>, depth: nat)
    requires CopyChildren(heap, objects, active, depth).Some?
    ensures MirrorsAll(heap, objects, JNode(isMap, CopyChildren(heap, objects, active, depth).value.0)) <==>
            LosslessAll(heap, objects, active, depth)
    decreases Room(depth), 3, |objects|
  {
    if objects != [] {
      CopyMirrorsIff(heap, objects[0].1, active, depth);
      AllMirrorIff(heap, isMap, objects[1..], active, depth);
      var first := CopyValue(heap, objects[0].1, active, depth).value.value;
      var rest := CopyChildren(heap, objects[1..], active, depth).value.0;
      FirstMirrors(heap, isMap, objects, (objects[0].0, first), rest);
      FirstLossless(heap, objects, active, depth);
    }
  }

  lemma {:induction false} FirstMirrors(
    heap: Heap, isMap: bool, objects: seq<(string, Id)>, first: (string, Json), rest: seq<(string, Json)>)
    requires objects != []
    ensures MirrorsAll(heap, objects, JNode(isMap, [first] + rest)) <==>
            objects[0].0 == first.0 && Mirrors(heap, objects[0].1, first.1) && MirrorsAll(heap, objects[1..], JNode(isMap, rest))
  {
    var all, tail := JNode(isMap, [first] + rest), JNode(isMap, rest);
    if MirrorsAll(heap, objects, all) {
      forall i | 0 <= i < |rest|
        ensures objects[1..][i].0 == tail.children[i].0 && Mirrors(heap, objects[1..][i].1, tail.children[i].1)
      {
        assert all.children[i + 1] == tail.children[i] && objects[1..][i] == objects[i + 1];
      }
      assert all.children[0] == first;
    }
    if objects[0].0 == first.0 && Mirrors(heap, objects[0].1, first.1) && MirrorsAll(heap, objects[1..], tail) {
      forall i | 0 <= i < |all.children|
        ensures objects[i].0 == all.children[i].0 && Mirrors(heap, objects[i].1, all.children[i].1)
      {
        if i > 0 { assert all.children[i] == tail.children[i - 1] && objects[i] == objects[1..][i - 1]; }
      }
    }
  }

  lemma {:induction false} FirstLossless(heap: Heap, objects: seq<(string, Id)>, active: set<Id>, depth: nat)
    requires objects != []
    ensures LosslessAll(heap, objects, active, depth) <==>
            Lossless(heap, objects[0].1, active, depth) && LosslessAll(heap, objects[1..], active, depth)
  {
    if LosslessAll(heap, objects, active, depth) {
      forall i | 0 <= i < |objects[1..]| ensures Lossless(heap, objects[1..][i].1, active, depth) {
        assert objects[1..][i] == objects[i + 1];
      }
    }
    if Lossless(heap, objects[0].1, active, depth) && LosslessAll(heap, objects[1..], active, depth) {
      forall i | 0 <= i < |objects| ensures Lossless(heap, objects[i].1, active, depth) {
        if i > 0 { assert objects[i] == objects[1..][i - 1]; }
      }
    }
  }

  /** A copy without a marker shows the evidence as it is exactly when the evidence has nothing a copy cannot hold. */
  lemma EvidenceMirrorsIff(heap: Heap, entries: seq<(string, Id)>)
    requires !Marked(SafeEvidence(heap, entries))
    ensures var j, objects := SafeEvidence(heap, entries), Children(Dict(None, entries, 0));
            j.JNode? && j.isMap && (MirrorsAll(heap, objects, j) <==> LosslessAll(heap, objects, {}, 1))
  {
    EvidenceIsExactOrMarked(heap, entries);
    AllMirrorIff(heap, true, Children(Dict(None, entries, 0)), {}, 1);
  }

  // ----- the code's own form

  /** `_EvidenceBudget`. */
  class EvidenceBudget {
    var remaining: nat

    constructor ()
      ensures remaining == MAX_NODES
    {
      remaining := MAX_NODES;
    }

    method Consume() returns (ok: bool)
      modifies this
      ensures ok <==> old(remaining) > 0
      ensures remaining == if ok then old(remaining) - 1 else old(remaining)
    {
      if remaining == 0 { return false; }
      remaining := remaining - 1;
      ok := true;
    }

    method Reserve(count: nat) returns (ok: bool)
      modifies this
      ensures ok <==> count <= old(remaining)
      ensures remaining == if ok then old(remaining) - count else old(remaining)
    {
      if count > remaining { return false; }
      remaining := remaining - count;
      ok := true;
    }
  }

  method JsonSafeScalar(a: V.Scalar, budget: EvidenceBudget) returns (r: Outcome)
    modifies budget
    ensures (r, budget.remaining) == SafeScalar(a, old(budget.remaining))
  {
    var ok := budget.Consume();
    r := if ok then Copied(JLeaf(a), false) else Pending(NodeLimit, true);
  }

  method JsonSafeValue(heap: Heap, id: Id, active: set<Id>, depth: nat, budget: EvidenceBudget) returns (r: Outcome)
    modifies budget
    ensures (r, budget.remaining) == SafeValue(heap, id, active, depth, old(budget.remaining))
    decreases Room(depth), 3, 0
  {
    var mark := heap(id).mark;
    if mark.Some? {
      if mark.value !in V.ALLOWED_TAGS {
        r := JsonSafeScalar(V.Null, budget);
        return;
      }
      if depth >= MAX_DEPTH { return Pending(DepthLimit, false); }
      var ok := budget.Consume();
      if !ok { return Pending(NodeLimit, true); }
      var inner := JsonSafeUntagged(heap, id, active, depth + 1, budget);
      match inner {
        case Pending(reason, halt) => r := Materialize(reason, halt);
        case Copied(value, halt) => r := Copied(WithTag(mark.value, value), halt);
      }
    } else {
      r := JsonSafeUntagged(heap, id, active, depth, budget);
    }
  }

  method JsonSafeUntagged(heap: Heap, id: Id, active: set<Id>, depth: nat, budget: EvidenceBudget) returns (r: Outcome)
    modifies budget
    ensures (r, budget.remaining) == SafeUntagged(heap, id, active, depth, old(budget.remaining))
    decreases Room(depth), 2, 0
  {
    match heap(id) {
      case Leaf(_, scalar) => r := JsonSafeScalar(Clean(scalar), budget);
      case Dict(_, _, _) => r := JsonSafeCollection(heap, id, active, depth, budget);
      case Array(_, _) => r := JsonSafeCollection(heap, id, active, depth, budget);
    }
  }

  /** `_json_safe_mapping` and `_json_safe_sequence`, which differ in what they reserve. */
  method JsonSafeCollection(heap: Heap, id: Id, active: set<Id>, depth: nat, budget: EvidenceBudget) returns (r: Outcome)
    requires !heap(id).Leaf?
    modifies budget
    ensures (r, budget.remaining) == SafeUntagged(heap, id, active, depth, old(budget.remaining))
    decreases Room(depth), 1, 0
  {
    var o := heap(id);
    if id in active {
      r := JsonSafeScalar(V.Null, budget);
      return;
    }
    if depth >= MAX_DEPTH { return Pending(DepthLimit, false); }
    var ok := budget.Consume();
    if !ok { return Pending(NodeLimit, true); }
    if o.Dict? { ok := budget.Reserve(|o.entries| + o.others); } else { ok := |o.items| <= budget.remaining; }
    if !ok {
      r := if budget.remaining == 0 then Pending(NodeLimit, true) else Copied(Marker(NodeLimit), false);
      return;
    }
    ghost var start := budget.remaining;
    var todo := Children(o);
    var done: seq<(string, Json)> := [];
    var i := 0;
    while i < |todo|
      invariant 0 <= i <= |todo|
      invariant SafeChildren(heap, o.Dict?, todo[i..], active + {id}, depth + 1, budget.remaining, done) ==
                SafeChildren(heap, o.Dict?, todo, active + {id}, depth + 1, start, [])
    {
      assert todo[i..][1..] == todo[i + 1..];
      if budget.remaining == 0 { return Pending(NodeLimit, true); }
      var value := JsonSafeValue(heap, todo[i].1, active + {id}, depth + 1, budget);
      if value.Pending? { return Materialize(value.reason, value.halt); }
      done := done + [(todo[i].0, value.value)];
      if value.halt { return Copied(JNode(o.Dict?, done), true); }
      i := i + 1;
    }
    r := Copied(JNode(o.Dict?, done), false);
  }

  method JsonSafeEvidence(heap: Heap, entries: seq<(string, Id)>) returns (j: Json)
    ensures j == SafeEvidence(heap, entries)
  {
    var budget := new EvidenceBudget();
    var ok := budget.Consume();
    ok := budget.Reserve(|entries|);
    if !ok { return Marker(NodeLimit); }
    ghost var start := budget.remaining;
    var todo := Children(Dict(None, entries, 0));
    var done: seq<(string, Json)> := [];
    var i := 0;
    while i < |todo|
      invariant 0 <= i <= |todo|
      invariant SafeChildren(heap, true, todo[i..], {}, 1, budget.remaining, done) ==
                SafeChildren(heap, true, todo, {}, 1, start, [])
    {
      assert todo[i..][1..] == todo[i + 1..];
      if budget.remaining == 0 { return Marker(NodeLimit); }
      var value := JsonSafeValue(heap, todo[i].1, {}, 1, budget);
      if value.Pending? { return Marker(value.reason); }
      done := done + [(todo[i].0, value.value)];
      if value.halt { return JNode(true, done); }
      i := i + 1;
    }
    j := JNode(true, done);
  }
}
